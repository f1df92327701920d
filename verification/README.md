# Verified model of the packet runner's safety scripts

Four scripts of the repository guard a Docker test run: one installs a firewall table and
must be able to take it out again whatever interrupted it, one stands between a client and
the Docker socket, one builds a private network namespace and must account for everything
it leaves behind, and one inspects a container through a series of fallbacks.  This project
models what those scripts compute and keep, and proves that they do what they are for.

Verify everything with `dafny verify dfyconfig.toml`.

## What is modelled

**Firewall restoration** (`scripts/firewall_boundary.py`).  `RestorationState` has disk and
kernel as one state: seven files (ledger, completion with its stage, intent and installed
record with theirs), the owned table and the foreign rules.  `RestorationHost` has the
atomic steps of a `Host`: listing the ruleset, unlink, create, fill, link, writing the
ledger, applying a batch.  Before every step others may change the foreign rules, and the
step may fail or the process may end there; a `calm` call is one nothing interferes with.
`RestorationProtocol`, `RestorationRemoval` and `RestorationCommands` are the commands on
that host, and `RestorationRuns` says what holds in every state of every run.  The
invariant `Inv` and the step relation `StepOk` are required of every single step, so they
hold after a crash anywhere.  `RestorationPoll` is the bounded wait for the preimage.

**Ruleset identity and marker diagnosis** (the same script).  `JsonText` is the canonical
text of a JSON value, `TextOrder` its sorting, `FirewallSnapshot` and `SnapshotLaws` the
strict and the semantic snapshot of a ruleset.  `Redaction` is the shape projection with its
shared budget; `MarkerRules`, `MarkerDiagnosis` and `MarkerVerdict` find the first
difference between the marker rules of a listing and the expected ones.

**Docker API boundary** (`scripts/docker_api_boundary.py`).  `HttpFraming` specifies the
incremental parser as a function of its state and `FramingParsers` has the two parser
classes that run it over a shared queue and a `BoundaryReceipt.Receipt`; `FramingLaws`,
`FramingRoundTrip` and `FramingPairing` are its laws, after sections 6.3, 7.1 and 9.3.2 of
RFC 9112.  `ReadOnlyRelay` is the read-only relay, `ChunkedBody` the strict chunked relay,
`DbStartPolicy` the one-shot request policy, `PolicyLanguage` the language of exchanges it
accepts, and `PolicyServer` several connections sharing one policy under one lock, whose
handlers may end by any exception between two awaits.

**Namespace probe** (`scripts/private_docker_netns_probe.py`).  `ProbeReceipt` is the
independent validator of the start and cleanup fields, `CleanupEvidence` the evidence lists,
`CleanupProbe` the probe that fills them along every failure path, `ReceiptCodec` and
`ReceiptLaws` the typed printer and the strict parser of receipts.

**Inspection** (`scripts/direct_port_probe.py`).  `InspectGroups` has the full projection of
a container, the five partial ones and their merge; `SafeInspect` the fallback and the
validator of its diagnostics.

## What the code does not promise

Some properties one would expect hold only under a condition; each is stated with the
condition under which it holds and a case in which it fails.

- `remove` succeeds undisturbed exactly on `Recoverable` states: there is evidence, the
  foreign rules are the recorded ones, and the interface and subnet names of a ledger are
  safe.  `prepare` does not check those names but `read_ledger` does
  (`scripts/firewall_boundary.py:1912-1915`), so `prepare` can leave a ledger that no later
  command reads (`UnsafeNamesBlockRemoval`).  Such a ledger is always fresh: nothing was
  applied under it (`UnsafeLedgerIsFresh`).
- Retiring the installed record before the intent would leave an intent that contradicts
  the completion, and no removal would go through; the order in the code avoids that
  (`ReverseRetirementIsUnsafe`).
- `pop_line` compares the whole buffer with the bound on lines only while no line end has
  come, so a stream may be accepted in one piece and raise when it is cut.  Cutting never
  matters if and only if no line of the stream reaches the bound (`CutsAreHarmlessIff`,
  `OverlongLineDependsOnTheCut`).
- An interim response takes the answer of its request, and from there on every response is
  attributed to the next request (`InterimResponseShiftsAttribution`).
- The relay forwards only reads as long as the parser raised nothing
  (`ForwardedBytesAreReadOnly`).  After a chunk with a bad end it forwards everything, and
  only the count of parser errors shows it (`BadChunkLetsWritesPass`).
- A reply to a health probe whose status is a list or an object raises after it was counted
  (`scripts/docker_api_boundary.py:668-673`), and nothing handles that.  The log can then
  come too early and the counts of a completed run do not fit (`LostProbesShow`).  Runs that
  lose no probe accept exactly the words of scripts (`AcceptedLanguage`), all runs together
  also those with the log after any probe (`AcceptedWithLoss`); the counts of a completed
  run fit if and only if it lost none (`CompletionCounts`).
- What was forwarded is what was accepted if and only if no exchange was cut off
  (`ForwardedIsKnown`).  A lost connection is counted, so such a run is not reported
  complete; but a trailer line over the limit of the reader, or such a health reply, ends an
  exchange without being counted, and a run may then be reported complete although a request
  was forwarded twice (`CompleteMeansExactlyTheScript`, `CutExchangeRepeats`,
  `OverlongTrailerLeaks`).
- The removal of network namespace and control group is required if and only if their
  creation was reported to have worked.  A creation that fails and leaves the namespace
  behind is found by the cleanup but not undone (`RunProbe`, `FailedCreationStays`).
- The marker diagnosis stops at a null entry without noticing it (`NullHidesTheRest`).
  `parse_ruleset` refuses such a list, and on a list of objects the diagnosis matches exactly
  the right listings (`DiagnoseListing`).

## Model

| member | source | states |
|---|---|---|
| RestorationRuns.Session | scripts/firewall_boundary.py:2704-2757 | Any list of commands on a fresh host, with drift, failure or a crash before any step, yields a safe run: every state of its history satisfies the invariant and every step is an allowed one |
| RestorationRuns.Recover | scripts/firewall_boundary.py:2570-2683 | From every state of such a run, at most two undisturbed `remove` calls leave no file and no table if and only if the state is recoverable; the foreign rules stay as they were |
| RestorationRemoval.Remove | scripts/firewall_boundary.py:2570-2683 | Undisturbed, succeeds if and only if the state is recoverable; success leaves no table, and no file when a completion was there before, else only the completion; every interrupted call keeps the invariant |
| RestorationRuns.TableHasItsLedger | scripts/firewall_boundary.py:2126-2205 | In every state of a run, an owned table in the kernel has its ledger on disk, readable and recording the captured preimage, and no completion |
| RestorationRuns.EvidenceIsNeverLost | scripts/firewall_boundary.py:2577-2683 | From any state with ledger or completion, one of them exists and records the same preimage in every later state, until the step that unlinks the last file of a restored host |
| RestorationRuns.CompletionIsSound | scripts/firewall_boundary.py:1721-1788 | Whenever a completion exists the table is absent, its preimage and postimage are the captured rules, and it was published after two readings of exactly those rules, the second without the table |
| RestorationRuns.ReverseRetirementIsUnsafe | scripts/firewall_boundary.py:2045-2069 | From any safe state with both pieces of marker evidence beside a completion, on the captured rules: with the intent gone first an undisturbed removal still goes through, with the installed record gone first it is refused with FIREWALL_MARKER_STATE_INVALID |
| RestorationRuns.UnsafeNamesBlockRemoval | scripts/firewall_boundary.py:2072-2105 | A step of `prepare` with unsafe names leads to a state with evidence and unchanged foreign rules that is not recoverable |
| RestorationRuns.UnsafeLedgerIsFresh | scripts/firewall_boundary.py:1912-1915 | A ledger with unsafe names is one `prepare` just wrote: no table, no completion, nothing recorded but the preimage |
| RestorationHost.ForeignIsIrrelevant | scripts/firewall_boundary.py:2425-2436 | Neither the invariant nor the step relation looks at the present foreign rules, so drift alone breaks nothing |
| RestorationHost.Host.Tick | scripts/firewall_boundary.py:2570-2683 | Between steps only the foreign rules may change, and a calm step is neither disturbed nor cut short |
| RestorationHost.Host.Apply | scripts/firewall_boundary.py:2157-2162 | A batch is applied wholly or not at all, and reported failure leaves either |
| RestorationHost.Host.Read | scripts/firewall_boundary.py:322-326 | A listing shows the owned table and the foreign rules of that moment, and is remembered |
| RestorationHost.Host.Unlink | scripts/firewall_boundary.py:1791-1796 | Removes one name and leaves every other file, also those that share the inode |
| RestorationHost.Host.Create | scripts/firewall_boundary.py:1674-1677 | A new, empty file with an inode of its own |
| RestorationHost.Host.Fill | scripts/firewall_boundary.py:1678-1686 | The stage holds the content, under every name it has |
| RestorationHost.Host.Link | scripts/firewall_boundary.py:1687 | The final name becomes another name of the stage file |
| RestorationHost.Host.WriteLedger | scripts/firewall_boundary.py:1388-1404 | The ledger holds the given record, and only the first ledger sets the captured rules |
| RestorationProtocol.RetirePath | scripts/firewall_boundary.py:1791-1796 | Removes exactly one name, or nothing |
| RestorationProtocol.ReconcileStage | scripts/firewall_boundary.py:1644-1662 | Removes a leftover stage and nothing else, and in a safe state never refuses: a stage beside its final file is the same file |
| RestorationProtocol.ReconcileMarkerStages | scripts/firewall_boundary.py:1960-1962 | Every file but the two marker stages is kept, whatever interrupts it |
| RestorationProtocol.StagesChangeNothing | scripts/firewall_boundary.py:1665-1700 | A change of nothing but a stage leaves what may be published publishable |
| RestorationProtocol.Stage | scripts/firewall_boundary.py:1672-1686 | Creates and fills the stage under a new file, keeping the right to publish its content |
| RestorationProtocol.Publish | scripts/firewall_boundary.py:1687-1688 | The final name either does not exist or is the complete stage file: no state shows a partly written final file |
| RestorationProtocol.DropStage | scripts/firewall_boundary.py:1693-1700 | The stage goes whether or not publishing worked, and nothing else does |
| RestorationProtocol.WriteEvidence | scripts/firewall_boundary.py:1665-1700 | On success exactly one new file with the given content and no stage; undisturbed, it fails only if the final file exists, with the collision code |
| RestorationProtocol.ReconcileMarkerState | scripts/firewall_boundary.py:1985-2042 | Returns the effective ledger of the files, restores a missing installed record when the kernel has the markers, changes no other file but the stages |
| RestorationProtocol.RecoveryMayBePublished | scripts/firewall_boundary.py:2027-2034 | The installed record rebuilt from ledger, intent and table is valid and may be published |
| RestorationProtocol.OrphansRead | scripts/firewall_boundary.py:2045-2062 | Without a ledger, whatever marker evidence is left reads back and agrees with the completion |
| RestorationProtocol.ValidateOrphans | scripts/firewall_boundary.py:2045-2062 | Changes nothing, and undisturbed always accepts what a safe run leaves |
| RestorationProtocol.RetireMarkerEvidence | scripts/firewall_boundary.py:2065-2069 | Removes both marker files and nothing else, every intermediate state being safe |
| RestorationRemoval.WaitForPreimage | scripts/firewall_boundary.py:2425-2567 | Ends as `WaitEnds` says: returns only on strict equality with the preimage, otherwise fails after exactly the attempt bound, reporting one observation per reading; undisturbed it succeeds at once or reports drift |
| RestorationRemoval.RemoveWithoutLedger | scripts/firewall_boundary.py:2577-2619 | Undisturbed, ends exactly as the verdict on the disk says: success if and only if a completion exists and the reading is the captured rules; without either file, missing evidence |
| RestorationRemoval.RemoveRestored | scripts/firewall_boundary.py:2623-2664 | With ledger and completion, undisturbed, succeeds if and only if the reading is the captured rules, and leaves no file |
| RestorationRemoval.RestorationMayBePublished | scripts/firewall_boundary.py:2665-2681 | After two strict readings the completion that `remove` builds is one that may be published |
| RestorationRemoval.DeleteTable | scripts/firewall_boundary.py:2666-2673 | Only after a matching reading; takes out the owned table and touches no foreign rule and no file |
| RestorationRemoval.Conclude | scripts/firewall_boundary.py:2680-2683 | Publishes the completion before ledger and marker evidence go, so that only the completion is left |
| RestorationRemoval.ConfirmRestoration | scripts/firewall_boundary.py:2674-2683 | Concludes if the rules read after the deletion are the captured ones |
| RestorationRemoval.Restore | scripts/firewall_boundary.py:2665-2683 | Undisturbed, succeeds if and only if the first reading is the captured rules, and otherwise reports drift |
| RestorationCommands.Prepare | scripts/firewall_boundary.py:2072-2123 | Succeeds only on an empty disk without a table, and then the ledger records the rules it read |
| RestorationCommands.Install | scripts/firewall_boundary.py:2126-2205 | Undisturbed, succeeds exactly on a fresh, matching, readable ledger with no table; then the base table is in the kernel and the ledger records the rules read last |
| RestorationCommands.ApplyBase | scripts/firewall_boundary.py:2154-2173 | From the listing before the batch to the rewritten ledger; the ledger claims an installation only if the foreign rules did not change meanwhile |
| RestorationCommands.InstallMarkers | scripts/firewall_boundary.py:2247-2338 | Never reports success; undisturbed on a markable state with valid addresses it applies the markers and records intent and outcome, and elsewhere it changes neither table nor files |
| RestorationCommands.ApplyMarkers | scripts/firewall_boundary.py:2285-2331 | The intent is on disk before the batch is applied and the outcome after it; the ledger stays as it is |
| RestorationCommands.RecordMarkers | scripts/firewall_boundary.py:2305-2333 | Markers read back from the kernel are recorded beside their intent, before a change of the foreign rules is reported |
| RestorationCommands.IntentMayBePublished | scripts/firewall_boundary.py:1498-1520 | The intent built for an installed base table is valid and may be published before the markers are applied |
| RestorationCommands.ReadEffectiveLedger | scripts/firewall_boundary.py:1965-1982 | Undisturbed, succeeds if and only if the ledger reads and intent and outcome exist together or not at all; returns the ledger with the markers of the outcome laid over it and changes nothing but leftover stages |
| RestorationCommands.Counters | scripts/firewall_boundary.py:2341-2373 | Undisturbed, succeeds if and only if an installation is recorded, the table is there, no intent is pending and, for marker counters, the markers are recorded; changes no file but leftover stages |
| RestorationCommands.RecordedOwnedIsCurrent | scripts/firewall_boundary.py:2224-2244 | Unless an intent waits for its outcome, the table in the kernel has the recorded shape whenever it is there |
| RestorationPoll.StrictImpliesSemantic | scripts/firewall_boundary.py:357-407 | For identities of rulesets strict equality implies semantic equality |
| RestorationPoll.TerminalMeaning | scripts/firewall_boundary.py:2550-2567 | Each of the four terminal classes if and only if a condition on the readings alone holds |
| RestorationPoll.ObservationAt | scripts/firewall_boundary.py:2429-2519 | The k-th observation compares the k-th reading with preimage, installation and the reading before it |
| JsonText.EncodeInjective | scripts/firewall_boundary.py:1407-1410 | Equal canonical texts mean equal values |
| JsonText.EncodeStep | scripts/firewall_boundary.py:1407-1410 | No canonical text is the beginning of another one in any context: value and remainder are determined |
| TextOrder.SortEqualIff | scripts/firewall_boundary.py:388-407 | Two sorted lists are equal if and only if the lists agree as multisets |
| SnapshotLaws.SemanticIdentity | scripts/firewall_boundary.py:374-407 | Two rulesets have equal semantic snapshots if and only if their other entries agree as multisets and every chain has the same rules in the same order |
| SnapshotLaws.StrictIdentity | scripts/firewall_boundary.py:357-371 | Equal canonical snapshots if and only if equal retained entries, and then equal semantic snapshots |
| SnapshotLaws.RulesetIdentities | scripts/firewall_boundary.py:345-407 | Both equivalences and the implication for any two listings and any excluded table |
| SnapshotLaws.CanonicalSnapshot | scripts/firewall_boundary.py:357-371 | The loop computes the text of the retained entries and the counts of their kinds |
| SnapshotLaws.SemanticSnapshot | scripts/firewall_boundary.py:374-407 | The loop with its two collections computes the specified semantic text |
| SnapshotLaws.ProbeSnapshot | scripts/private_docker_netns_probe.py:262-311 | The separate implementation of the probe computes the same two texts and counts when no table is excluded |
| SnapshotLaws.EncodeAllEqualIff | scripts/firewall_boundary.py:388-407 | Counting canonical texts is counting values |
| SnapshotLaws.RulesByText | scripts/firewall_boundary.py:374-407 | Grouping rules by the text of their chain is grouping them by their chain |
| Redaction.Projector.Project | scripts/firewall_boundary.py:608-645 | With a shared budget and a depth, the projection stays supported if and only if the value fits both limits, and then is the skeleton of the value |
| Redaction.ShapeDigest | scripts/firewall_boundary.py:608-645 | Supported if and only if the value has few enough nodes and is shallow enough, and then the digest is that of its skeleton |
| Redaction.SkeletonsAgree | scripts/firewall_boundary.py:612-641 | Equal skeletons if and only if same keys, list lengths, scalar types and operator class, for all values |
| Redaction.DigestTellsShape | scripts/firewall_boundary.py:608-645 | Equal digests of projections if and only if same shape: no literal influences the digest |
| MarkerRules.ExpectedRulesAreExpected | scripts/firewall_boundary.py:524-605 | Every expected expression has the one-key form that the diagnosis takes for granted |
| MarkerRules.ExpectedIsSupported | scripts/firewall_boundary.py:524-645 | The expected rules fit the limits of the projection for every identity |
| MarkerDiagnosis.NoMismatchIffEqual | scripts/firewall_boundary.py:912-970 | The comparisons of an expression find no difference if and only if the expressions are equal |
| MarkerDiagnosis.FirstDifference | scripts/firewall_boundary.py:898-970 | The reported expression is the first that differs, everything before it being equal |
| MarkerDiagnosis.DiagnoseExpressions | scripts/firewall_boundary.py:859-970 | Nothing found if and only if the expression list is the expected one; otherwise the finding describes the first difference |
| MarkerDiagnosis.DiagnoseRule | scripts/firewall_boundary.py:848-970 | Nothing found if and only if the rule is the expected one up to its handle; otherwise the finding describes why |
| MarkerVerdict.Collect | scripts/firewall_boundary.py:734-752 | The pass over the entries collects exactly the marker rules of each chain, in order, up to the entry that stops it |
| MarkerVerdict.DiagnoseChains | scripts/firewall_boundary.py:840-971 | Nothing found if and only if all chains match; otherwise the first difference in chain, rule and expression order |
| MarkerVerdict.Diagnose | scripts/firewall_boundary.py:701-971 | The reported class is a match if and only if nothing malformed was noticed and the collected rules match; every located mismatch is the first one; the diagnostic is valid |
| MarkerVerdict.DiagnoseListing | scripts/firewall_boundary.py:701-971 | On a list of objects, a match if and only if no entry is malformed and every chain of the listing has exactly the expected rules up to handles |
| MarkerVerdict.MatchedIsSupported | scripts/firewall_boundary.py:754-836 | Matching rules have the expected shape, so a match is never reported as unsupported |
| MarkerVerdict.NullHidesTheRest | scripts/firewall_boundary.py:735-742 | On a list with a null in it the diagnosis says what it would say of the entries before the null alone, whatever follows |
| FramingLaws.ParseSplit | scripts/docker_api_boundary.py:949-996 | Once a prefix has been parsed, the rest is parsed as if it had come at once |
| FramingLaws.FeedSplit | scripts/docker_api_boundary.py:949-996 | If feeding a raises nothing, feeding a and b at once is feeding a and then b: same state, buffer, queue and log, or the same exception |
| FramingLaws.FragmentationIndependence | scripts/docker_api_boundary.py:949-1054 | Feeding any fragments that raise nothing is feeding them in one piece, for both parsers |
| FramingLaws.SplitIsHarmlessIff | scripts/docker_api_boundary.py:883-891 | Two given fragments are accepted if and only if their concatenation is and the first does not end in an unfinished line over the bound |
| FramingLaws.CutsAreHarmlessIff | scripts/docker_api_boundary.py:883-891 | For a stream that parses in one piece: every cut in two, and every fragmentation, has the same outcome if and only if no line the parser takes from it reaches the bound |
| FramingLaws.LongLineBreaks | scripts/docker_api_boundary.py:883-891 | A stream with a line that reaches the bound has a cut at which it raises |
| FramingLaws.OverlongLineDependsOnTheCut | scripts/docker_api_boundary.py:883-891 | There is a stream that is accepted whole and raises when cut |
| FramingLaws.ShortLinesFragmentFreely | scripts/docker_api_boundary.py:883-891 | If no line reaches the bound, cutting a stream never matters, also to whether it raises |
| FramingLaws.ParseRaiseStable | scripts/docker_api_boundary.py:949-1054 | Every other exception is the same whatever bytes come later |
| FramingRoundTrip.TakeTail | scripts/docker_api_boundary.py:893-940 | After its start line, any well-formed message, with sized or chunked body or none, brings the parser back to rest and consumes exactly its bytes |
| FramingRoundTrip.TakeMessage | scripts/docker_api_boundary.py:949-1054 | Any well-formed message is consumed exactly, leaving what follows it |
| FramingPairing.ExchangesArePaired | scripts/docker_api_boundary.py:979-1054 | For all well-formed exchanges, any fragmentation and any interleaving where request lines precede their status lines: both parsers end at rest with empty buffers and queue, and response k is attributed to request k |
| FramingPairing.InterleavingIndependence | scripts/docker_api_boundary.py:979-1054 | For arbitrary bytes, if every response found its request, the outcome is that of all requests first and then all responses |
| FramingPairing.ClientFirst | scripts/docker_api_boundary.py:944-1054 | A client fragment commutes with an earlier daemon fragment |
| FramingPairing.InterimResponseShiftsAttribution | scripts/docker_api_boundary.py:1035-1054 | For any exchanges with an interim response before the k-th final one: the answers before it are right, it takes the k-th request, every later final response is attributed to the next request and the last one to none |
| FramingPairing.ResponsesInTurn | scripts/docker_api_boundary.py:1035-1054 | Any list of responses, well formed for the requests they meet, is attributed to the waiting requests in turn, and to none when none is left |
| FramingParsers.RequestParser.Feed | scripts/docker_api_boundary.py:943-996 | The class, with its mutable buffer, shared queue and receipt, does exactly what the specification of feeding does |
| FramingParsers.ResponseParser.Feed | scripts/docker_api_boundary.py:999-1054 | The same for responses |
| FramingParsers.HTTPFramingParser.PopLine | scripts/docker_api_boundary.py:883-891 | Takes the first line and its end, or nothing, and tells an overlong one |
| FramingParsers.HTTPFramingParser.ConsumeBody | scripts/docker_api_boundary.py:893-916 | Consumes as much of a body or chunk as the buffer holds, and insists on the end of a chunk |
| FramingParsers.RequestParser.TakeRequestLine | scripts/docker_api_boundary.py:979-991 | Queues and records the request exactly as specified, or refuses a writing one after counting it |
| FramingParsers.ResponseParser.TakeStatusLine | scripts/docker_api_boundary.py:1035-1043 | Takes the oldest request from the queue and records the response as its answer |
| BoundaryReceipt.Receipt.Request | scripts/docker_api_boundary.py:782-788 | The counters remain those of the log with one more request |
| BoundaryReceipt.Receipt.Response | scripts/docker_api_boundary.py:790-800 | The counters remain those of the log with one more response |
| BoundaryReceipt.PhaseCountsAddUp | scripts/docker_api_boundary.py:782-788 | The phase counts of a receipt add up to its requests |
| BoundaryReceipt.MethodCountsAddUp | scripts/docker_api_boundary.py:782-788 | The method counts add up to the requests |
| BoundaryReceipt.StatusCountsAddUp | scripts/docker_api_boundary.py:790-800 | The status counts add up to the responses, the errors are the 4XX, 5XX and other ones, and a first error exists exactly if there is one |
| ReadOnlyRelay.ForwardedBytesAreReadOnly | scripts/docker_api_boundary.py:1201-1219 | Without a parser error, the forwarded bytes parsed in one piece hold only GET and HEAD requests; a stopped relay never forwarded the line that stopped it completely; otherwise everything was forwarded |
| ReadOnlyRelay.NothingStopsABadChunk | scripts/docker_api_boundary.py:1212-1218 | From a bad chunk end on, every fragment raises the same error, is forwarded, and leaves the parser where it is |
| ReadOnlyRelay.BadChunkLetsWritesPass | scripts/docker_api_boundary.py:1201-1219 | After any GET or HEAD whose first chunk has a bad end, whatever the client sends is forwarded, a writing request too, with no write attempt counted and one parser error for each fragment |
| ReadOnlyRelay.ParsedRequestsAreReads | scripts/docker_api_boundary.py:979-991 | A request parser that raised nothing has read only GET and HEAD |
| ReadOnlyRelay.BoundaryServer.RelayRequests | scripts/docker_api_boundary.py:1201-1219 | The loop forwards, stops and counts exactly as the relay specification says |
| ChunkedBody.ReadChunkedBody | scripts/docker_api_boundary.py:1335-1387 | On success the bytes returned, or written, are those consumed and are the rendering of the chunks, whose payload is decoded; on rejection what was written is a prefix of what was consumed |
| ChunkedBody.AcceptableIsTaken | scripts/docker_api_boundary.py:1335-1387 | Every acceptable chunked body, within the maximum, is accepted as that body, whatever follows |
| ChunkedBody.TakenIsAcceptable | scripts/docker_api_boundary.py:1335-1387 | Everything accepted begins with an acceptable chunked body, its payload within the maximum |
| ChunkedBody.OverlongTrailerEscapes | scripts/docker_api_boundary.py:1360-1364 | A trailer line over the reader's limit escapes as an exception that is neither a violation nor an end of input |
| ChunkedBody.ParserAgrees | scripts/docker_api_boundary.py:1006-1031 | The response parser, fed what the relay passed on from a chunk size, is back at a start line with an empty buffer |
| ChunkedBody.RelayTrailers | scripts/docker_api_boundary.py:1360-1372 | Trailers are passed on line by line up to their bound; an end of input and a line over the reader's limit escape as two different exceptions |
| DbStartPolicy.GrantedMeans | scripts/docker_api_boundary.py:519-606 | A request is granted if and only if verb, target, query and body are those of the present step; one that raises anything but a violation leaves the policy as it was, up to its byte count |
| DbStartPolicy.AcceptedMeans | scripts/docker_api_boundary.py:613-693 | A reply is accepted if and only if its status, content and health are those the step allows, and then the step advances; a reply that raises anything but a violation leaves the step, and is counted as a probe exactly if its health status is a list or an object |
| DbStartPolicy.DBStartPolicy.Authorize | scripts/docker_api_boundary.py:519-606 | The class decides and changes exactly as specified, on every branch and error code |
| DbStartPolicy.DBStartPolicy.Create | scripts/docker_api_boundary.py:519-606 | Path before query before body, each with its own error code |
| DbStartPolicy.DBStartPolicy.Logs | scripts/docker_api_boundary.py:519-606 | Path before query, each with its own error code |
| DbStartPolicy.DBStartPolicy.Accept | scripts/docker_api_boundary.py:613-693 | The same for replies |
| PolicyLanguage.OnlyScriptsAreAccepted | scripts/docker_api_boundary.py:519-693 | For all sequences of requests and replies the accepted steps begin a script in whose run that many probes were lost; on completion they are a whole script of the probes not lost |
| PolicyLanguage.CompletionCounts | scripts/docker_api_boundary.py:665-693 | The word of a completed run is always a whole script; its probes are the counted ones if and only if none was lost, and its other steps number 15 or 16 if and only if none was lost, or one after a negotiation in two steps |
| PolicyLanguage.EveryScriptIsAccepted | scripts/docker_api_boundary.py:519-693 | Every beginning of every script is accepted for suitable requests and replies, with any number of probes lost that the script allows for |
| PolicyLanguage.AcceptedLanguage | scripts/docker_api_boundary.py:228-693 | A word of steps is accepted without losing a probe if and only if it begins a script: HEAD, perhaps GET, the database, 1 to 121 probes, then GoTrue or, after 121, the log |
| PolicyLanguage.AcceptedWithLoss | scripts/docker_api_boundary.py:665-676 | A word is accepted in any run if and only if it begins a script with 1 to 121 probes: with probes lost, the log may follow any of them |
| PolicyLanguage.LostProbesShow | scripts/docker_api_boundary.py:665-676 | For every descriptor, a run that accepts the log after one probe, and a completed run with 14 steps besides the counted probes |
| PolicyLanguage.FailureAbsorbs | scripts/docker_api_boundary.py:519-521 | A failed or complete policy accepts nothing and is failed afterwards |
| PolicyLanguage.OnlyCreatedContainers | scripts/docker_api_boundary.py:519-606 | After every run, a granted start, log, inspect or remove request names the id that the reply to an accepted create step of that run named, and the two ids differ |
| PolicyLanguage.IdsComeFromReplies | scripts/docker_api_boundary.py:644-658 | An id the policy holds was named by the reply to its accepted create step |
| PolicyLanguage.CreatedOnce | scripts/docker_api_boundary.py:644-658 | Each create step is accepted at most once in a run, so its id is the only one |
| PolicyLanguage.RankDecreases | scripts/docker_api_boundary.py:613-693 | Every accepted exchange lowers a rank and no other exchange raises it |
| PolicyServer.ServeKeeps | scripts/docker_api_boundary.py:1459-1527 | The invariant of server, lock and policy holds after all events on all connections, with violations, counted errors and exceptions that nothing counts at any point |
| PolicyServer.OneExchangeAtATime | scripts/docker_api_boundary.py:1455-1516 | At most one connection has a forwarded request that waits for its response |
| PolicyServer.NothingAfterFailure | scripts/docker_api_boundary.py:1459-1516 | Once the policy has failed, no event forwards a request, delivers a whole response or accepts one |
| PolicyServer.CompleteMeansExactlyTheScript | scripts/docker_api_boundary.py:811-819 | A class of completion means that the accepted steps are a whole script; and that the forwarded requests are exactly the accepted ones, in order and once each, if and only if no exchange ended by an exception that nothing counts |
| PolicyServer.ForwardedIsKnown | scripts/docker_api_boundary.py:1474-1516 | At every point of every run, what was forwarded is what was accepted, in order, and then what is under way, if and only if no exchange was ever cut off |
| PolicyServer.CutExchangeRepeats | scripts/docker_api_boundary.py:1508-1516 | For every descriptor, a run that forwards its first request twice and ends as a forwarding failure if the cut was counted, and as complete if it was not |
| PolicyServer.OverlongTrailerLeaks | scripts/docker_api_boundary.py:1360-1364 | A response with a trailer line over the reader's limit ends its exchange uncounted |
| CleanupEvidence.EvidenceIsNested | scripts/private_docker_netns_probe.py:1658-1694 | Succeeded is a subsequence of attempted and attempted of required, for every outcome |
| CleanupEvidence.CountsDecideLists | scripts/private_docker_netns_probe.py:1726-1744 | So the three lists are equal if and only if their counts are |
| CleanupEvidence.FailuresAreUnfinished | scripts/private_docker_netns_probe.py:416-494 | The failures seen in the counts are at most the operations that did not succeed, and none unfinished means all lists equal |
| CleanupEvidence.RequiredIsBelow | scripts/private_docker_netns_probe.py:1663-1669 | In the order of the cleanup no operation is recorded twice, so recording never raises |
| CleanupProbe.Probe.StartContainerd | scripts/private_docker_netns_probe.py:1003-1018 | Whichever start step fails, the start fields are valid, and on success they say ready |
| CleanupProbe.Probe.WaitForContainerdSocket | scripts/private_docker_netns_probe.py:932-947 | Sees the socket, or leaves the shape of an early exit or of a timeout, or raises with nothing reported |
| CleanupProbe.Probe.CreateContainerdNamespaces | scripts/private_docker_netns_probe.py:976-1001 | Creates twice, or leaves the shape of the creation that failed |
| CleanupProbe.Probe.VerifyContainerdNamespaces | scripts/private_docker_netns_probe.py:949-974 | Reads two namespaces back and is ready, or leaves the shape of a failed readback |
| CleanupProbe.Probe.CreateDockerObject | scripts/private_docker_netns_probe.py:1545-1549 | A removal is owed from before its creation is attempted |
| CleanupProbe.Probe.Attempt | scripts/private_docker_netns_probe.py:1675-1694 | Records required, attempted and, if it worked, succeeded; a failure is also listed |
| CleanupProbe.Probe.RecordUnavailable | scripts/private_docker_netns_probe.py:1671-1673 | Records required alone, and a failure |
| CleanupProbe.Probe.RecordRequired | scripts/private_docker_netns_probe.py:1663-1669 | Appends to one list, or raises exactly when the operation is there |
| CleanupProbe.Probe.StopProcess | scripts/private_docker_netns_probe.py:1702-1719 | A running process is named in the evidence, and a failure to stop it is listed |
| CleanupProbe.Probe.Synchronize | scripts/private_docker_netns_probe.py:1551-1572 | Only adds obligations |
| CleanupProbe.Probe.RemoveDockerObjects | scripts/private_docker_netns_probe.py:1630-1651 | Every owed removal is required, whether or not it could be tried |
| CleanupProbe.Probe.CleanupDocker | scripts/private_docker_netns_probe.py:1751-1785 | The docker part names every owed removal, and is clean only without failure and residue |
| CleanupProbe.Probe.CleanupHost | scripts/private_docker_netns_probe.py:1786-1873 | Names the removal of namespace and control group only if their creation was reported, but looks for both in any case, and is clean only without failure and residue |
| CleanupProbe.Probe.Finalize | scripts/private_docker_netns_probe.py:1721-1744 | The lists hold nothing twice, so it never raises; the counts are those of the lists and pass the validator, and without a failure they are complete |
| CleanupProbe.Probe.Cleanup | scripts/private_docker_netns_probe.py:1747-1905 | Reports success if and only if nothing failed, nothing is left and the host is as before; always leaves valid cleanup fields and every owed removal named; success means that neither namespace nor control group is there |
| CleanupProbe.RunProbe | scripts/private_docker_netns_probe.py:1909-1974 | For every combination of outcomes the receipt is valid; PASS implies a proved cleanup; once finalized, the removals of all docker objects whose creation was attempted are required, and those of namespace and control group if and only if their creation was reported; a proved cleanup has left neither of these two |
| CleanupProbe.FailedCreationStays | scripts/private_docker_netns_probe.py:893-901 | A namespace left behind by a creation reported as failed: its removal is not required and it stays, but the query finds it and the cleanup is not proved |
| CleanupProbe.Probe.CreateNetns | scripts/private_docker_netns_probe.py:893-901 | Attempt, report and presence of the namespace are three different things |
| CleanupProbe.Conclude | scripts/private_docker_netns_probe.py:1922-1974 | Whatever a run and its cleanup report, the receipt made of them is valid, and PASS only with a proved cleanup |
| CleanupProbe.OwedIsRequired | scripts/private_docker_netns_probe.py:1545-1651 | What the cleanup named is in the required list |
| ReceiptCodec.Validate | scripts/private_docker_netns_probe.py:497-537 | The loop accepts if and only if keys, types and ranges are right and the cross check passes |
| ReceiptCodec.FormatReceipt | scripts/private_docker_netns_probe.py:540-547 | Prints if and only if the receipt is valid, one line per field in order |
| ReceiptCodec.ParseReceipt | scripts/private_docker_netns_probe.py:550-577 | Returns the only receipt the text parses to, or none if there is none |
| ReceiptLaws.RoundTrip | scripts/private_docker_netns_probe.py:540-577 | Printing a valid receipt and parsing the text gives the receipt |
| ReceiptLaws.AcceptedTextIsPrinted | scripts/private_docker_netns_probe.py:540-577 | The lines printed for what was parsed are a permutation of the lines of any accepted text |
| ReceiptLaws.ValueRoundTrip | scripts/private_docker_netns_probe.py:352-363 | Decimal, boolean and word values read back as printed |
| ReceiptLaws.ValueTextOfParsed | scripts/private_docker_netns_probe.py:550-577 | Only the printed form of a value is accepted |
| Decimal.NatRoundTrip | scripts/private_docker_netns_probe.py:540-577 | A number is the value of its digits |
| Decimal.NatTextOfValue | scripts/private_docker_netns_probe.py:550-577 | Canonical digits are the text of their value |
| InspectGroups.Compose | scripts/direct_port_probe.py:857-933 | Valid payloads always merge; composition is refused exactly when the container id is not the requested one |
| InspectGroups.MergedValue | scripts/direct_port_probe.py:857-933 | Every key of the merge has the value of the one group it belongs to |
| InspectGroups.ProjectionsCompose | scripts/direct_port_probe.py:748-933 | Merging the five valid projections of a container gives its full projection |
| SafeInspect.Inspect | scripts/direct_port_probe.py:946-1031 | For all command outcomes, a payload or a diagnostic and never both; a payload if and only if the full command or the whole fallback worked; every diagnostic passes all cross-field checks and names the first group that failed |
| SafeInspect.FallbackIsFaithful | scripts/direct_port_probe.py:946-1031 | If the partial commands render one container, the fallback returns what the full command would have |

## Left out

- RestorationHost.Host.WriteLedger: the ledger is written in one step, though the code truncates it in place (`scripts/firewall_boundary.py:1388-1401`), so a crash inside that write is not modelled.
- RestorationHost.Host.Apply: an applied batch reads back as a shape the code accepts; what nft does with the text of a batch is not part of this model.
- RestorationHost.Host.Fill: a stage is filled in one step; short writes are not modelled, and `write_completion` does not look for one.
- RestorationProtocol.ReconcileMarkerState: the marker diagnosis inside it is taken not to raise on a listing of accepted shape.
- RestorationCommands.InstallMarkers: whether the listing matches is a parameter; the diagnosis itself is modelled in `MarkerVerdict`.
- JsonText.EncodeInjective: digests are taken to be injective, so texts are compared in place of SHA-256 values; the text of a float is an opaque token.
- FramingPairing.ExchangesArePaired: exchanges have no interim response, which the code would pair wrongly (`InterimResponseShiftsAttribution`).
- HttpFraming.Parse: chunk sizes are hexadecimal digits and Content-Length ASCII digits; Python's `int` and `isdigit` accept more.
- DbStartPolicy.GrantedMeans: the checks on container bodies, environment and URL texts are verdicts that a request carries: they pass, refuse, or raise something else.
- DbStartPolicy.AcceptedMeans: the exit code is the number that the value equals, so that false counts as 0.
- PolicyServer.ServeKeeps: events happen one at a time between awaits; a request comes whole or not at all, and the bytes of a stream are not counted.
- FramingPairing.InterimResponseShiftsAttribution: the responses behind the interim one are taken to be well formed for the requests they are attributed to; others make the parser lose the boundary between responses.
- ReceiptLaws.RoundTrip: the list of fields, their words and the cross checks are parameters; the field list is taken to have distinct keys and plain words.
- CleanupProbe.RunProbe: has the start, cleanup and outcome fields of the receipt; counters and network results are outcomes, not fields.
- ReceiptCodec.ParseReceipt: Python's limit of 4300 digits on reading integers is not modelled.
- SafeInspect.Inspect: the availability check compares with Python's loose equality, where true equals 1; the model compares values.
- InspectGroups.ProjectionsCompose: the full template writes some names without escaping; names are taken to need none.
- MarkerVerdict.Collect: an entry whose chain is a list or an object raises a TypeError, which is modelled as no diagnostic.
- Commands run one at a time; two runners on one ledger are not modelled.
- Counter values, file modes and owners, symbolic links, fsync and signals of the firewall script.
- The command and batch texts, the checks on the kernel's listing of the owned table, and the split of a listing into owned and foreign parts.
- Failures while writing to a client or to the daemon, except as a broken connection.
- Python's recursion limit on deeply nested JSON.
- The loopback proxy, the network canaries, namespace and control group checks of the probe.
- `scripts/fitness_full_chain_replay.py` and the scripts that are flat checks or single passes over a list.
