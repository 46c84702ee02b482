# Teleport API client, modelled and proved in Dafny

This project models the parts of Teleport's Go API module that are hardest to get right by reading: the
circuit breaker every client call goes through, the racing goroutines of `connect`, the page walkers that
shrink their pages, the identity file format, the send side of the inventory control stream, the WebSocket
connection, and three smaller pieces of `api/types`. `dafny verify dfyconfig.toml` checks everything.

## How it is organised

| file | models | main results |
|---|---|---|
| `Common.dfy` | types several modules share | |
| `Breaker.dfy` | the breaker object, its configuration and trip functions | each method is its specification step |
| `BreakerRuns.dfy` | every interleaving of `Execute` calls over any clock readings | counters account for every call; a generation has one state; nothing runs while tripped; thresholds and callbacks exactly |
| `Connect.dfy` | `connect` as a step system: producer, workers, waiter, main loop, drainer, two channels, a WaitGroup | never stuck, every run ends, every client is returned or closed once, what every answer means |
| `Pagination.dfy` | the page walkers against a server that may reject or fail any call | complete listings, order, cost, the exact meaning of "too large" and of the type errors |
| `IdentityFile.dfy`, `IdentityRoundTrip.dfy`, `IdentityBytes.dfy` | encoder, decoder, line scanner, line classifier, over bytes | round trip if and only if well-formed; stable decoding; what every file decodes to, also on concrete bytes |
| `Inventory.dfy` | any number of concurrent `Send` calls, the send loop, closers | results of `Send` are truthful and have their reason in every interleaving; every call ends |
| `WebSocket.dfy` | the frame reader with its leftover buffer, the writers | byte conservation and every ping answered, in every interleaving of readers and writers |
| `CertAuthorityFilter.dfy` | `Match`, `Contains` and the wire form | containment is inclusion, with its exact exceptions |
| `AccessRequestRoles.dfy` | normalisation and recovery of role lists | canonical forms; `GetOriginalRoles` exactly |
| `CAKeySet.dfy` | deep copies and removal of secrets | nothing shared, nothing else lost |

Objects with updated fields are classes (`CircuitBreaker`, `ListResourcesRequest`, `WebSocketConn`,
`AccessRequest`, `KeyPair`). Their methods are tied to functions on values, and the theorems are about runs
of those functions. Protocols between goroutines are step systems: a state, the enabled steps,
and every run of them. The mutex of the breaker makes each locked section one step.

Clocks, random draws, the network and the server are inputs: the breaker's clock readings are arbitrary
(assumed not to go backwards only where a theorem says `Monotone`), the jitter's draw is a parameter, a
server is a stable list with an arbitrary verdict on each call, and a network is an arbitrary
success or failure of each write.

## Where the code and its own words differ

The model follows the code.

- `RatioTripper` is documented to trip when the ratio is greater than the given one; it trips at equality too
  (`api/breaker/breaker.go:166-178`): `TripsAtEquality` says exactly when the two differ.
- `Execute` is documented to reject some calls in Recovering with `ErrLimitExceeded`
  (`api/breaker/breaker.go:312-317`); `AdmittedExactly` proves that it admits all of them.
- `OnExecute` is documented to be called once for each execution (`api/breaker/breaker.go:136-139`). A call that
  outlives its generation is executed and never reported: `LateCallIsNeverReported` exhibits one for
  every configuration, and `ReportedExactly` says exactly which calls are reported.
- `OnTripped` is documented at the field to be called on entering Tripped (`api/breaker/breaker.go:128-131`). It is
  launched from Standby only, as the package comment says: `LaunchesExactly` for every step of every run,
  and `RetripIsNotAnnounced` is a run that enters Tripped without it.
- `connect` says its last "no connection methods found" should never be reached (`api/client/client.go:377`). It
  can be, when the caller cancels: `SilentFailureExactly` says for which configurations.
- The 32-bit counters of the breaker wrap: `WrappedTotalsMislead` is a run in which that trips it early.
- `GetResourcePage` answers "received unexpected resource type" (`api/client/client.go:4155-4159`), but never because of
  a received resource: one of another kind than requested becomes a nil entry of a success. `NilExactly` and
  `OtherKindBecomesNil` show it, and `RefusedExactly` says when the error does come.
- `CertAuthorityFilter.Contains` is not transitive: `UnknownTypeBreaksTransitivity` gives the filters,
  `ContainsIsNearlyAPreorder` the exact condition.
- `GetOriginalRoles` assumes that equal lengths mean equal role sets; `OriginalRolesExactly` says when that
  is right, and `LengthTestMisleads` is a request for which it is not.

## Model

| member | source | states |
|---|---|---|
| `Breaker.SeventhJitter` | api/utils/retryutils/jitter.go:101-112 | a positive duration stays positive, is never lengthened and loses at most a seventh; from 7 on it is shortened, and without one the result is 0 |
| `Breaker.JitterCoversItsRange` | api/utils/retryutils/jitter.go:98-112 | every duration from 6d/7 up to d comes out for exactly one draw |
| `Breaker.CheckAndSetDefaults` | api/breaker/breaker.go:238-281 | rejects exactly the configurations without a positive interval or without a trip function; every other one becomes valid with the caller's interval, Trip, Recover and limit, 3 for no limit, and a period within a seventh below the caller's or a minute |
| `Breaker.CircuitBreaker.constructor` | api/breaker/breaker.go:301-310 | a new breaker is in Standby, generation 1, with zero counters and an expiry one interval away |
| `Breaker.CircuitBreaker.NextGeneration` | api/breaker/breaker.go:440-452 | a new generation in the same state with zeroed counters and that state's expiry |
| `Breaker.CircuitBreaker.SetState` | api/breaker/breaker.go:417-424 | entering another state starts a generation there; entering the same state changes nothing |
| `Breaker.CircuitBreaker.CurrentState` | api/breaker/breaker.go:427-436 | the clock alone moves an expired Tripped to Recovering and rolls an expired Standby over |
| `Breaker.CircuitBreaker.BeforeExecution` | api/breaker/breaker.go:336-356 | the arrival step of the run model; a call gets the current generation as ticket unless tripped, when it is reported and rejected |
| `Breaker.CircuitBreaker.AfterExecution` | api/breaker/breaker.go:360-376 | the finishing step of the run model, dropping a result whose ticket is not the generation left current |
| `Breaker.CircuitBreaker.SuccessLocked` | api/breaker/breaker.go:380-393 | the success step: report, count, and leave Recovering at the limit |
| `Breaker.CircuitBreaker.FailureLocked` | api/breaker/breaker.go:397-413 | the failure step: count, report, and trip when the state's test accepts the new counters |
| `BreakerRuns.RunKeepsInv` | api/breaker/breaker.go:321-452 | in every reachable state counters, tickets, callbacks, the run of successes in Recovering and the expiry agree with the history of the run |
| `BreakerRuns.CountersAccountForEveryCall` | api/breaker/breaker.go:52-75 | in every run successes plus failures plus calls in flight of the generation are the executions, the consecutive counters are the lengths of the current runs and one of them is zero, modulo the uint32 width and exactly below it |
| `BreakerRuns.GenerationHasOneState` | api/breaker/breaker.go:417-452 | generation numbers never decrease, and two moments with the same generation have the same state, so a ticket identifies the state its call was admitted in |
| `BreakerRuns.LateResultChangesNothing` | api/breaker/breaker.go:360-376 | the result of a call from an earlier generation does nothing but what the clock reading does anyway |
| `BreakerRuns.StateChangesFollowTheGraph` | api/breaker/doc.go:20-32 | in every run the state changes only along the four documented edges, each with a new generation |
| `BreakerRuns.CallbacksBalance` | api/breaker/breaker.go:321-376 | in every reachable state one more OnTripped than OnStandBy was launched outside Standby and as many in it, and every call that arrived was reported once, dropped as late or still runs |
| `BreakerRuns.LaunchesExactly` | api/breaker/doc.go:29-32 | every step of every run launches exactly the report of its call and the callback of its edge: OnTripped on Standby to Tripped and nowhere else, OnStandBy on Recovering to Standby and nowhere else |
| `BreakerRuns.RetripIsNotAnnounced` | api/breaker/breaker.go:128-131 | a run that enters Tripped from Recovering without an OnTripped, for every configuration in which one failure trips the breaker in Standby and in Recovering |
| `BreakerRuns.AdmittedExactly` | api/breaker/breaker.go:312-356 | in every run a call is admitted exactly when the breaker is not tripped or its expiry has passed, so always in Recovering |
| `BreakerRuns.LateCallIsNeverReported` | api/breaker/breaker.go:136-139 | for every valid configuration there is a run with an executed call that is never reported |
| `BreakerRuns.ReportedExactly` | api/breaker/breaker.go:360-413 | a finished call is reported once exactly when its generation is current and, in Standby, its interval is not over |
| `BreakerRuns.TripsExactlyOnFailure` | api/breaker/breaker.go:397-413 | the breaker trips exactly on a recorded failure whose configured test accepts the counters including it |
| `BreakerRuns.RatioTripMeansRatioReached` | api/breaker/breaker.go:166-178 | in every run a ratio breaker trips exactly on a recorded failure for which the totals modulo 2^32 reach the ratio; below 2^32 admissions in the generation these are the true totals and the divisor is never zero |
| `BreakerRuns.WrappedTotalsMislead` | api/breaker/breaker.go:52-75 | after 2^32 calls in one generation a single failure trips the breaker though the ratio is not reached |
| `BreakerRuns.TripsAtEquality` | api/breaker/breaker.go:166-178 | the tripper agrees with its comment (a greater ratio) exactly unless enough calls were executed and the ratio is equal, when it trips; with an input at equality |
| `BreakerRuns.StandbyFailureRunBounded` | api/breaker/breaker.go:180-186 | with a consecutive-failure tripper, no reachable Standby state has seen more than the given number of failures in a row |
| `BreakerRuns.ConsecutiveTripExactly` | api/breaker/breaker.go:180-186 | Standby trips exactly on the failure after the given number of failures in a row, and never for the largest uint32 |
| `BreakerRuns.StandbyOnlyThroughTheLimit` | api/breaker/breaker.go:380-393 | Recovering ends in Standby exactly on the success that completes RecoveryLimit successes in a row |
| `BreakerRuns.BuiltBreakerObeysItsCaller` | api/breaker/breaker.go:238-413 | a breaker built from a raw configuration starts in Standby with the caller's interval, trips in Standby exactly by the caller's Trip and in Recovering exactly by the caller's Recover, and returns to Standby exactly on the success that completes the caller's limit, or three |
| `BreakerRuns.StandbyCountsWithinInterval` | api/breaker/breaker.go:427-452 | a Standby generation lasts one interval: later readings start an empty one, earlier ones keep it unless they trip |
| `BreakerRuns.TrippedUntilExpiry` | api/breaker/breaker.go:427-452 | after a trip the breaker stays tripped with the same expiry until a reading passes the tripped period |
| `BreakerRuns.NothingRunsWhileTripped` | api/breaker/breaker.go:336-356 | after a trip no call is admitted before a reading strictly past the tripped period |
| `BreakerRuns.FirstCallAfterPeriodRecovers` | api/breaker/breaker.go:427-436 | the first call after the period is admitted, in Recovering, as the first of the generation after the tripped one |
| `Connect.RunKeepsInv` | api/client/client.go:250-369 | in every reachable state the WaitGroup, both channels, the ownership of every client, the planned workers and the collected errors are consistent |
| `Connect.ErrorChannelIsSafe` | api/client/client.go:255-349 | the error channel is closed at most once and only when every sender is done; the WaitGroup counter is never negative and never added to from zero |
| `Connect.NeverStuck` | api/client/client.go:265-369 | in every invariant state that is not final some goroutine can step, without the caller |
| `Connect.EveryStepDecreases` | api/client/client.go:265-369 | every step lowers a natural measure |
| `Connect.EveryRunEnds` | api/client/client.go:250-383 | no run is longer than 4 steps per planned action plus 7, and one that cannot go on has ended every goroutine |
| `Connect.EveryClientIsReturnedOrClosed` | api/client/client.go:266-281 | at the end each opened client was returned or closed exactly once, never both, and no other was |
| `Connect.AnswerIsTheDeliveredClient` | api/client/client.go:271-281 | the answer is client i exactly when worker i delivered it, and then its dial succeeded and nobody closed it; every other opened client is closed once |
| `Connect.AnswerShowsEveryFailure` | api/client/client.go:351-383 | an answer with errors, cancelled or not, holds exactly one error for each credential that fails before dialing and each attempt that failed |
| `Connect.AnswerWithoutCancellation` | api/client/client.go:351-383 | without cancellation the answer is a client exactly when a dial succeeded, and one with errors holds one for each failing credential and each attempt of the configuration |
| `Connect.ErrorMeansNothingConnected` | api/client/client.go:351-383 | without cancellation `connect` fails exactly when no dial succeeded, having started every planned attempt, with exactly one error for each planned report and each attempt |
| `Connect.PlanOneCounts` | api/client/client.go:288-341 | a credential that fails before dialing is reported exactly once and another one never; the attempts are one for the dialer and one or five for each address |
| `Connect.ErrorsAreComplete` | api/client/client.go:351-383 | such a failure shows one error for each failing credential and each attempt the configuration calls for |
| `Connect.DialablePlansSomething` | api/client/client.go:288-341 | a credential with an address or a dialer always leads to an attempt or an error |
| `Connect.PlanReports` | api/client/client.go:288-323 | the producer reports an error exactly when some credential fails before dialing |
| `Connect.SilentFailureExactly` | api/client/client.go:371-379 | the answer of line 378 is reachable exactly with an address or a dialer and every credential getting as far as dialing, that of line 375 exactly without address and dialer and every credential getting so far; by runs in which no dial succeeds after cancellation |
| `Connect.SilenceWithoutCancellation` | api/client/client.go:371-379 | without cancellation line 378 is reachable exactly with an address or a dialer and no credentials, which validation rejects, and line 375 exactly with neither and no credential that brings or fails to bring an address |
| `Connect.SilentFailureNeedsCancellation` | api/client/client.go:371-379 | with a credential and an address or a dialer, and no cancellation, every run that fails has an error to show |
| `Pagination.GetResourcesWithFilters` | api/client/client.go:4206-4250 | the loop ends as the reference walk does, after as many calls, and a success is the server's whole list |
| `Pagination.GetResourcePage` | api/client/client.go:4098-4168 | the page size is the one asked for from 1 to 1000 and else 1000; all calls but the last are rejected and halve it, it stays in the request, and the last call decides result, next key and total count; when even one item is too large the size left is 0 |
| `Pagination.PageMoves` | api/client/client.go:4098-4168 | such a page moves the reference walk to its end or to the next position |
| `Pagination.Convert` | api/client/client.go:4123-4161 | the loop gives one entry per resource, in order, nil for a resource of another kind; it fails on any non-empty page exactly when the requested kind is not paged or its type is not the caller's |
| `Pagination.GetAllResources` | api/client/client.go:4172-4193 | ends as the reference walk from its start key does, after as many calls; a success has one entry for each resource of the rest of the list, in order |
| `Pagination.ListingsAgree` | api/client/client.go:4172-4250 | for a request without a fault, GetAllResources and GetResourcesWithFilters make the same calls and end alike, and their successes are the same if and only if every resource has the requested kind |
| `Pagination.NilExactly` | api/client/client.go:4123-4161 | a listing has nil exactly in the place of each resource of another kind, so it is the whole list if and only if there is none |
| `Pagination.OtherKindBecomesNil` | api/client/proto/authservice.pb.go:11017-11022 | a listing of nodes from a server with a node and a database is a success with a nil entry |
| `Pagination.RefusedExactly` | api/client/client.go:4123-4161 | the two type errors come exactly when the kind is not paged, or its type is not the caller's, there is anything to list and the first call that is not rejected is accepted, whatever the resources |
| `Pagination.WalkEnds` | api/client/client.go:4215-4247 | a walk ends because of its last call, gives up only after a rejected request for one item, and refuses only for the fault of the request |
| `Pagination.WalkCost` | api/client/client.go:4228-4238 | each rejection halves the page size for good; every other call but the last delivers an item |
| `Pagination.ListingIsFaithful` | api/client/client.go:4200-4250 | a success is the complete rest of the list in order after at most 9 rejections; "too large" is exactly the tenth, of a request for one item; a refusal is about the request; other failures are the server's own |
| `IdentityFile.WriteAll` | api/identityfile/identityfile.go:219-244 | the loop appends each part in order, ended by a newline unless it already ends in one |
| `IdentityFile.EncodeIdentityFile` | api/identityfile/identityfile.go:206-233 | the method writes the specified text |
| `IdentityFile.ReadBlock` | api/identityfile/identityfile.go:284-299 | the inner loop reads up to the first end line and joins exactly those lines |
| `IdentityFile.ParseLines` | api/identityfile/identityfile.go:275-311 | the scanning loop computes the recursive reference parser |
| `IdentityFile.DecodeIdentityFile` | api/identityfile/identityfile.go:248-316 | the method computes the reference decoder, errors included |
| `IdentityRoundTrip.DecodeUndoesEncode` | api/identityfile/identityfile.go:206-316 | decoding the encoding of a well-formed identity returns it, for any line classifier |
| `IdentityRoundTrip.AcceptedIsWellFormed` | api/identityfile/identityfile.go:248-316 | every decoded identity is well-formed |
| `IdentityRoundTrip.RoundTripExactly` | api/identityfile/identityfile.go:206-316 | the round trip holds if and only if the identity is well-formed |
| `IdentityRoundTrip.DecodeIsStable` | api/identityfile/identityfile.go:206-316 | whatever text is accepted, encoding and decoding again gives the same identity |
| `IdentityRoundTrip.FragmentExactly` | api/identityfile/identityfile.go:284-299 | lines are rejected exactly when they end inside a PEM block |
| `IdentityRoundTrip.DecodeKeepsEveryPart` | api/identityfile/identityfile.go:248-316 | for every text: the last SSH certificate wins, authorities and blocks are kept in file order and fill their slots, and errors are exactly long lines and open blocks |
| `IdentityRoundTrip.KindsAreExclusive` | api/identityfile/identityfile.go:275-322 | the order of the decoder's tests does not matter: each alone decides its kind, the SSH certificate pattern included |
| `IdentityRoundTrip.GoTidies` | api/identityfile/identityfile.go:255-262 | for every byte sequence, valid UTF-8 or not, stripping is idempotent and leaves alone exactly the lines without white space at either end |
| `IdentityBytes.SpacesAreUnicode` | api/identityfile/identityfile.go:255-262 | the white space around lines is exactly the UTF-8 encodings of the code points with the Unicode property White_Space |
| `IdentityBytes.SpaceAroundIsDropped` | api/identityfile/identityfile.go:255-262 | any white space in front of and behind a line comes off, and nothing else |
| `IdentityBytes.KindsOnBytes` | api/identityfile/identityfile.go:275-322 | what makes a line a certificate, an authority, or the start or end of a block, on its bytes |
| `IdentityBytes.AuthorityLine` | api/identityfile/identityfile.go:279-280 | a line that starts with @cert-authority decodes to that one SSH authority |
| `IdentityBytes.CertificateLine` | api/utils/sshutils/ssh.go:248-255 | a line that starts with an OpenSSH certificate type of any key type and version decodes to that SSH certificate |
| `IdentityBytes.PemBlock` | api/identityfile/identityfile.go:281-310 | lines from -----BEGIN to the first -----END decode to exactly that private key, whatever is between |
| `IdentityBytes.OpenBlockIsRejected` | api/identityfile/identityfile.go:284-299 | a block that is not ended is rejected as a fragment |
| `IdentityBytes.OtherLinesAreIgnored` | api/identityfile/identityfile.go:272-310 | lines that start with none of these leave no trace |
| `IdentityBytes.LongLineIsRejected` | api/identityfile/identityfile.go:249-262 | a first line of more than 65535 bytes is an error |
| `IdentityBytes.FinalBreakDoesNotMatter` | api/identityfile/identityfile.go:249-262 | a file decodes alike with and without its last line break |
| `IdentityBytes.FileIsItsParts` | api/identityfile/identityfile.go:206-244 | a file is the key, the SSH and the TLS certificate, the SSH and the TLS authorities, in this order, each ended by one line break |
| `Inventory.RunKeepsInv` | api/client/inventory.go:320-425 | in every reachable state each call's phase, result channel and stream attempts agree |
| `Inventory.SendIsTruthful` | api/client/inventory.go:367-390 | nil means sent exactly once; a stream error means tried once, failed and last; every other result but "result skipped" means never sent |
| `Inventory.OutcomeHasItsReason` | api/client/inventory.go:325-390 | every result has its cause in the run: nil and a stream error the send with that result, an unexpected type exactly an unknown message whose reply was read, the rest a cancelled context or the error of the close |
| `Inventory.UndisturbedSendReturnsNil` | api/client/inventory.go:325-390 | a call with a known message that nobody cancels, on a stream that neither failed nor was closed, returns only nil |
| `Inventory.ReachableOutcomes` | api/client/inventory.go:367-390 | `Send` can return each of its results but the one for a stream done without an error, which it never does |
| `Inventory.KnownFromTheStart` | api/client/inventory.go:325-348 | a call is about the message it was made with |
| `Inventory.CancelledCallCanReturn` | api/client/inventory.go:367-390 | a cancelled call can always return by a step of its own, with the context's error before its message is offered |
| `Inventory.OutcomeIsFinal` | api/client/inventory.go:367-390 | no later step changes the result of a returned call |
| `Inventory.StreamFollowsAcceptance` | api/client/inventory.go:320-365 | messages go to the stream in acceptance order, one at a time, and nothing follows a failed send |
| `Inventory.ReportNeverBlocks` | api/client/inventory.go:320-365 | the loop always finds room in the result channel |
| `Inventory.FirstCloseErrorIsKept` | api/client/inventory.go:404-425 | done is closed at most once, never before the error is set, and the first error is kept |
| `Inventory.CloseErrorHasItsReason` | api/client/inventory.go:350-358 | the error of a closed stream is the first closer's, EOF for none, or that of the failed send, EOF kept and any other wrapped |
| `Inventory.NeverStuck` | api/client/inventory.go:320-419 | while a call is pending, the loop, a closer or a caller can step without outside help |
| `Inventory.EveryCallEnds` | api/client/inventory.go:320-419 | in any run these steps number at most 3, plus 5 for each call and 1 for each close from elsewhere, and when none is left every call has returned |
| `WebSocket.WebSocketConn.Write` | api/client/alpn_websocket.go:134-137 | a masked binary frame goes out, or the failure is returned, with the full length either way |
| `WebSocket.WebSocketConn.WriteOut` | api/client/alpn_websocket.go:139-149 | the frame goes out masked, or the failure is returned |
| `WebSocket.WebSocketConn.Read` | api/client/alpn_websocket.go:93-132 | fills the front of the buffer as the reference read says and leaves the rest of it alone |
| `WebSocket.ReadEndsForAReason` | api/client/alpn_websocket.go:101-132 | a read hands out leftover bytes, or passes over frames until the last one it consumes: it returns EOF exactly for a close, a write error exactly for a ping whose pong fails, bytes exactly for data, and a read error exactly when all frames are consumed without any of these |
| `WebSocket.ReadIsSteps` | api/client/alpn_websocket.go:93-132 | an uninterrupted read is a sequence of the steps below, with the same bytes and the same connection left |
| `WebSocket.StreamIsConserved` | api/client/alpn_websocket.go:93-132 | for every interleaving of the steps of reads with writes, bytes read followed by the leftover are the binary payloads consumed |
| `WebSocket.ReadSizesDoNotMatter` | api/client/alpn_websocket.go:93-132 | any reader gets a prefix of the stream and two that drained it got the same bytes, whatever the sizes |
| `WebSocket.ReadMakesProgress` | api/client/alpn_websocket.go:93-132 | a read with room returns bytes exactly when it returns no error |
| `WebSocket.EveryPingIsAnswered` | api/client/alpn_websocket.go:108-149 | in every interleaving and on any network each ping consumed was answered by one try, in order, with its payload, the last perhaps still to come; writes were tried in order; and the frames sent are exactly the tries that succeeded |
| `WebSocket.AnswersAreSent` | api/client/alpn_websocket.go:108-149 | when writes succeed, each ping but one just taken has its pong on the wire, and each write its frame |
| `CertAuthorityFilter.ContainsImpliesIncludes` | api/types/authority.go:735-760 | a containing filter matches every authority the contained one matches |
| `CertAuthorityFilter.MatchesExactly` | api/types/authority.go:691-697 | an empty filter matches everything, another one what its entry for the type says, any cluster for "*"; a type without an entry matches only an authority without a cluster name |
| `CertAuthorityFilter.ContainsExactly` | api/types/authority.go:691-760 | for all filters, containment is inclusion of matches plus coverage of the entries that match nothing |
| `CertAuthorityFilter.ContainsIsInclusion` | api/types/authority.go:691-760 | with known types and non-empty names, containment is inclusion |
| `CertAuthorityFilter.ContainsIsNearlyAPreorder` | api/types/authority.go:735-760 | reflexive, and transitive exactly unless the middle filter is empty and the third names an uncovered unknown type |
| `CertAuthorityFilter.UnknownTypeBreaksTransitivity` | api/types/authority.go:735-760 | filters for which transitivity fails |
| `CertAuthorityFilter.IntoMap` | api/types/authority.go:700-710 | the loop copies the filter, an empty one to nil |
| `CertAuthorityFilter.FromMap` | api/types/authority.go:713-724 | the loop copies the map, nil or empty to an empty filter |
| `CertAuthorityFilter.WireKeepsFilters` | api/types/authority.go:700-724 | the trip of a filter to a map and back is the identity; the other way round it changes exactly the empty map that is not nil |
| `AccessRequestRoles.Deduplicate` | api/utils/slices.go:50-63 | the loop keeps the first occurrence of each element |
| `AccessRequestRoles.DedupFacts` | api/utils/slices.go:50-63 | the kept elements are distinct and the same set |
| `AccessRequestRoles.DedupKeepsOrder` | api/utils/slices.go:50-63 | the kept elements stand in the order of their first occurrences |
| `AccessRequestRoles.LessIsLexicographic` | api/types/access_request.go:409-411 | the order is ascending and lexicographic |
| `AccessRequestRoles.CanonicalIsUnique` | api/types/access_request.go:409-411 | a set of roles has one strictly ascending list |
| `AccessRequestRoles.NormalizeIsCanonical` | api/types/access_request.go:409-411 | two role lists normalise alike exactly when they name the same roles |
| `AccessRequestRoles.AccessRequest.CheckAndSetDefaults` | api/types/access_request.go:376-414 | accepts exactly the complete requests without a premature resolution, names the first thing that is wrong with any other, and makes the roles canonical, losing none |
| `AccessRequestRoles.AccessRequest.GetOriginalRoles` | api/types/access_request.go:274-290 | the role list, or the canonical list of the threshold keys, by the code's test |
| `AccessRequestRoles.OriginalRolesExactly` | api/types/access_request.go:274-290 | the threshold keys are returned exactly unless the lengths agree while some role has no threshold |
| `AccessRequestRoles.LengthTestMisleads` | api/types/access_request.go:274-290 | a request for which they are not |
| `CAKeySet.KeyPair.Clone` | api/types/authority.go:562-588 | a new pair over new slices with equal contents |
| `CAKeySet.Clone` | api/types/authority.go:592-613 | every pair of every list is copied, in order, into new objects; no two copies in any list are the same object or share a slice, even where the originals do |
| `CAKeySet.WithoutSecrets` | api/types/authority.go:617-629 | new objects in the same order with all public parts and no secret, sharing nothing, whatever the lists share |
| `CAKeySet.WithoutSecretsTwice` | api/types/authority.go:617-629 | removing the secrets again changes no contents |

## Left out

- RatioTripMeansRatioReached: compares over reals where the source rounds to float64.
- StandbyFailureRunBounded: bounds the true run for a limit below 2^32 - 1, above which the wrapped counter can never exceed it.
- CircuitBreaker: the generation number is unbounded where the source wraps a uint64; `NewNoop`, whose configuration is not validated, and `IsSuccessful`, of which only the verdict is an input, are not modelled.
- NothingRunsWhileTripped: needs a clock that does not go backwards, as every theorem over two clock readings does.
- EveryRunEnds: a dial in `connect` is assumed to end, with either result; the context's own error that `connect` appends to its aggregate after a cancellation is left out.
- EveryCallEnds: a send on the inventory stream is assumed to end, with either result.
- ListingIsFaithful: the server is a stable list that gives at least one item while any remain and a next key exactly while more remain; a list that changes between calls is outside it.
- DecodeIdentityFile: the file permissions, the missing-certificate checks of `Read` and `FromString`, and the other file formats are left out.
- SendIsTruthful: models the downstream half of the stream; the upstream half runs the same loop with other message types; the receive loops appear only as closers, and the in-memory pipe is not modelled.
- WebSocket.WebSocketConn.Read: frames other than binary, ping and close are skipped as the source skips them, so fragmented messages are not reassembled; the handshake and the masking key's bytes are left out.
- CAKeySet.KeyPair.Clone: one key-pair class stands for the SSH, TLS and JWT types.
- AccessRequest.CheckAndSetDefaults: the metadata check is an input, and sorting is an insertion sort with the same unique result.
- The dialers, handshakes and the hundreds of gRPC wrappers of the client, which pass calls through.
- The Kubernetes, unified and enriched variants of the page walkers, which repeat the shape of the modelled ones.
- Conversion of events to and from their wire forms, field by field.
- Wording of errors, logging and tracing.
- The rest of the repository outside the API module.
