# Claustrum, verified

A Dafny model of the parts of the claustrum credential vault where correctness is a relation
between several functions, with proofs over every input, every log, every run and every
interleaving. Check it with `dafny verify dfyconfig.toml`.

| module | part of the system |
|---|---|
| `AuditChain` | the tamper-evident audit log: MAC input, chain walk, append |
| `UrlPath`, `Scope` | path, host, location, scope and target validation; where a secret may be released |
| `Framing`, `SecretCodec` | deposit plaintext, sealed body, associated data, record binding |
| `BitStream`, `Base64`, `Totp` | streaming radix decoders with a 32-bit accumulator, one-time passwords |
| `Ulid`, `Approval` | request ids, the statements a phone signs, envelope item checks |
| `WatchTracker`, `WatchSystem`, `WatchReader` | the client's watch tracker, the watch end to end, the frame reader |
| `Client` | error classes, correlation-matched replies, the cached connection, bounded retry |
| `RefreshEngine` | the crash-safe OAuth refresh as a state machine, and what its guesses risk |
| `WorkflowReader`, `WorkflowScan` | the workflow-file reader, and how far it gets |
| `WorkflowText`, `WorkflowRoundTrip` | the reader's round trip |
| `Arithmetic`, `Bytes` | shared arithmetic and byte helpers |

Bytes are characters below 256, so that string literals denote byte strings. Rust integers keep
their widths: `u32` and `u64` wrap-around and `i64` limits are written out. HMAC is an arbitrary
function with a fixed output length, never assumed injective: where a proof would need that, it
hands back a concrete collision or forgery instead. What the network, the clock, the random source
and the provider do is a parameter of each call or a step of a state machine.

## What the proofs found

- **Audit log.** Against a log the vault wrote, an accepted log is a truncation of it, or shows a
  forged MAC at the entry where it departs, or the vault's own log holds a MAC collision.
  Truncation itself is invisible to the chain walk (`AcceptedPrefix`).
- **Login origins.** Matching a site login accepts every spelling of port 443 that integer parsing
  accepts, such as `:0443` or `:+443`; the canonical-origin comparison refuses those.
  `CanonicalOriginsAgreeIff` gives the exact condition and `LeadingZeroPortMatches` an instance.
- **Scope aliasing.** The encoder writes a missing and an empty path prefix alike. Validation is
  what makes the encoded-prefix check an equality of scopes (`ValidScopesSameFields`);
  `EmptyPrefixAliasesNone` shows the aliasing without it.
- **Watch.** No notice goes unanswered by a needed read. A view that flips and flips back within
  one wake of the producer still leaves a settled consumer with the view in between.
  `SettledConsumerIsCurrentIff` gives the exact condition and `SettledConsumerCanBeStale` the run.
- **Refresh.** No refresh token is presented after it was spent, across crashes, lease handovers,
  abandoned exchanges, failed commits, reports and new logins, unless some step guessed wrong: put
  or left a token in service that was spent, superseded or on its way to the provider. There are
  five kinds of guess: a failed reply, a reply without an access token, a passed validity check, an
  operator's reactivation, and an operator storing a file of unknown age. The vault cannot see
  whether a guess is right, so `SafeIffNothingIsGuessed` gives the condition it can see: safety holds
  for a set of kinds exactly when the set is empty, with a run for each kind. No adapter of this
  version offers a validity check, so that one run needs an adapter that does not exist yet.
- **Workflow files.** A read stops, without a word, at the first line that finds no place among the
  open blocks. `ReadStopsWhereScanStops` says for every file which line that is. Items written in
  their key's own column, which YAML allows, are such lines, wherever they stand
  (`DashInKeyColumnStopsTheRead`). Behind a dash, a flow list or a block scalar's head is read as
  text (`MarkedItemIsText`). A bare dash is read as nothing only if no content follows; otherwise it
  is an empty list, an empty mapping or the block two columns in (`BareDashIs`).

The refresh model is wider than the vault in one place. Its `Report` step takes a record out of
service at any moment, while a consumer's report on a refreshable record only marks it stale. The
safety results hold for the wider model, hence for the vault.

## Model

| member | source | states |
|---|---|---|
| AuditChain.HexInjective | crates/credentials-core/src/audit.rs:578-585 | hexadecimal text determines the bytes |
| AuditChain.HexText | crates/credentials-core/src/audit.rs:578-585 | the appending loop writes two digits per byte, in order |
| AuditChain.HmacState.FeedField | crates/credentials-core/src/audit.rs:561-564 | feeding a field appends its length-prefixed frame |
| AuditChain.HmacState.FeedOptional | crates/credentials-core/src/audit.rs:568-576 | feeding an optional field appends a presence tag and then the frame, if any |
| AuditChain.FeedOptionInjective | crates/credentials-core/src/audit.rs:566-576 | no field value aliases a missing one, whatever follows |
| AuditChain.MacInputInjective | crates/credentials-core/src/audit.rs:482-517 | the MAC-covered bytes determine the previous MAC and all eight fields |
| AuditChain.PayloadDomainSeparated | crates/credentials-core/src/audit.rs:28-43 | no entry's MAC input is the label the payload key is derived from |
| AuditChain.ComputeEntryMac | crates/credentials-core/src/audit.rs:501-517 | the field-by-field feed computes the MAC of the whole input |
| AuditChain.VerifyChain | crates/credentials-core/src/audit.rs:519-559 | `None` exactly on accepted logs, otherwise the seq of the entry that ends the longest accepted prefix |
| AuditChain.AcceptedPrefix | crates/credentials-core/src/audit.rs:519-559 | every prefix of an accepted log is accepted |
| AuditChain.AcceptedAppend | crates/credentials-core/src/audit.rs:519-559 | an append keeps acceptance exactly when the new entry chains to the tip |
| AuditChain.SameMacSameEntry | crates/credentials-core/src/audit.rs:501-559 | entries of accepted logs with one MAC are one entry, or their inputs collide |
| AuditChain.TipCommitsToLog | crates/credentials-core/src/audit.rs:501-585 | accepted logs of any lengths with one tip are identical or yield two inputs with one digest |
| AuditChain.TipLength | crates/credentials-core/src/audit.rs:24-26 | a computed MAC never equals the genesis anchor: 64 characters against 7 |
| AuditChain.AlteredLogIsTruncationOrForgery | crates/credentials-core/src/audit.rs:501-559 | an accepted alteration of a written log is a truncation, a forgery at the point of departure, or a collision inside the written log |
| AuditChain.AuditLog.Append | crates/credentials-core/src/store.rs:8735-8810 | appending keeps the chain accepted and numbered 1, 2, 3, ...; a failure of any of its three statements, or an exhausted counter, changes nothing and never restarts the chain |
| UrlPath.ParsePair | crates/credentials-core/src/agent_secret_validation.rs:83-91 | an escape read with a leading plus sign never stands for a printable byte |
| UrlPath.DecodePath | crates/credentials-core/src/agent_secret_validation.rs:79-96 | the decoding loop computes the recursive decoding, refusals included |
| UrlPath.ValidatePath | crates/credentials-core/src/agent_secret_validation.rs:70-104 | accepts exactly the valid paths |
| UrlPath.UnescapeConcat | crates/credentials-core/src/agent_secret_validation.rs:79-96 | decoding distributes over concatenation behind a decodable prefix |
| UrlPath.UnescapeLeavesNoEscape | crates/credentials-core/src/agent_secret_validation.rs:79-103 | a decoded path holds no percent sign and no backslash |
| UrlPath.DecodingKeepsDelimiters | crates/credentials-core/src/agent_secret_validation.rs:83-91 | decoding introduces no separator, dot or parameter mark and takes none away |
| UrlPath.DecodeTwiceIsDecodeOnce | crates/credentials-core/src/agent_secret_validation.rs:79-103 | decoding a second time changes nothing |
| UrlPath.UnescapeSegmentwise | crates/credentials-core/src/agent_secret_validation.rs:79-103 | decoding commutes with splitting on the separator |
| UrlPath.RemoveDotsIdentity | crates/credentials-core/src/agent_secret_validation.rs:97-104 | dot-segment removal (section 5.2.4 of RFC 3986) copies a path without dot segments unchanged |
| Scope.HostBytes | crates/credentials-core/src/agent_secret_validation.rs:15-34 | an accepted host holds only lower-case letters, digits, hyphens and dots |
| Scope.PointerEscapesOk | crates/credentials-core/src/agent_secret_validation.rs:106-157 | the iterator accepts exactly the texts whose every tilde starts one of the two escapes |
| Scope.ValidateLocation | crates/credentials-core/src/agent_secret_validation.rs:106-157 | the branching check gives the declarative verdict, its two error kinds included |
| Scope.ValidateScope | crates/credentials-core/src/agent_secret_validation.rs:44-68 | the scope verdict, with errors in the source's order |
| Scope.ValidateTarget | crates/credentials-core/src/agent_secret_use.rs:101-118 | the target verdict, with errors in the source's order |
| Scope.PathUnderIsSegmentPrefix | crates/credentials-core/src/agent_secret_use.rs:120-157 | the string-prefix test holds exactly when the segment list is a prefix |
| Scope.ValidPathIsUnambiguous | crates/credentials-core/src/agent_secret_validation.rs:70-104 | an accepted path has one reading: decoding again, removing dots before or after decoding, splitting before or after decoding, and dropping path parameters all agree |
| Scope.ParametersHideNothing | crates/credentials-core/src/agent_secret_validation.rs:97-102 | dropping the parameters of every segment keeps the segments apart and brings no dot segment to light |
| Scope.ReleaseConfinement | crates/credentials-core/src/agent_secret_use.rs:101-157 | a match between accepted target and scope goes to the scope's host over HTTPS and stays under its prefix, before and after decoding, dot removal and dropping parameters |
| Scope.SiteLoginMatchIsSameHost | crates/credentials-core/src/agent_secret_use.rs:145-178 | a login target matches exactly when it writes the scope's host with no port or a spelling of 443 |
| Scope.CanonicalOriginsAgreeIff | crates/credentials-core/src/agent_secret_validation.rs:36-42 | a matching target has the scope's canonical origin exactly when its port is absent or written `:443` |
| Scope.LeadingZeroPortMatches | crates/credentials-core/src/agent_secret_use.rs:160-178 | a concrete target that matches although the canonical-origin comparison refuses it |
| Framing.UnframeFrame | crates/credentials-core/src/agent_secret.rs:350-360 | reading a written field returns it and what follows |
| Framing.UnframeExact | crates/credentials-core/src/agent_secret.rs:350-360 | whatever reads as a field is that field's frame followed by the rest |
| Framing.FramesPrefixFree | crates/credentials-core/src/agent_secret.rs:222-225 | equal byte strings that start with equally many frames have the same fields and the same rest |
| Arithmetic.OrBelow | crates/credentials-core/src/agent_secret_use.rs:188-191 | bitwise or-ing in a number below the lowest set bit is adding it |
| BitStream.ShiftIn | crates/credentials-core/src/apns.rs:216 | the low bits of the shifted, truncated accumulator are free, so or-ing a digit in is shifting it in and truncating |
| SecretCodec.Buffer.PushField | crates/credentials-core/src/agent_secret.rs:222-225 | appends one length-prefixed frame |
| SecretCodec.Buffer.PushScope | crates/credentials-core/src/agent_secret.rs:161-178 | appends the scope's frames, or refuses a key without location and appends nothing |
| SecretCodec.Buffer.PushMaterial | crates/credentials-core/src/agent_secret.rs:192-211 | appends the material's frames |
| SecretCodec.DepositPlaintext | crates/credentials-core/src/agent_secret.rs:248-253 | writes the plaintext format |
| SecretCodec.SealedBody | crates/credentials-core/src/agent_secret.rs:255-268 | succeeds exactly on fitting, encodable pairs and then writes the sealed format |
| SecretCodec.Fields.Next | crates/credentials-core/src/agent_secret.rs:352-360 | reads one frame and advances past it, or refuses |
| SecretCodec.Fields.ExpectField | crates/credentials-core/src/agent_secret.rs:361-367 | succeeds exactly when the next field is the expected one |
| SecretCodec.Fields.NextText | crates/credentials-core/src/agent_secret.rs:368-372 | succeeds exactly when the next field is well-formed UTF-8 |
| SecretCodec.Fields.Material | crates/credentials-core/src/agent_secret.rs:373-393 | reads the material of a kind and leaves the cursor behind it |
| SecretCodec.DecodeDepositPlaintext | crates/credentials-core/src/agent_secret.rs:339-348 | the cursor parser computes the recursive parse |
| SecretCodec.OpenBody | crates/credentials-core/src/agent_secret.rs:308-337 | the cursor parser with its encoded-prefix test computes the recursive parse |
| SecretCodec.DepositCodecExact | crates/credentials-core/src/agent_secret.rs:339-401 | bytes decode to a material exactly when they are its encoding under its kind |
| SecretCodec.DepositRoundTrip | crates/credentials-core/src/agent_secret.rs:248-253 | decoding an encoding returns the material, an empty one-time-password URI read as none |
| SecretCodec.OpenExact | crates/credentials-core/src/agent_secret.rs:308-337 | a body opens to a material under a scope exactly when it is the sealed form of both |
| SecretCodec.SealedOpensIffSameFields | crates/credentials-core/src/agent_secret.rs:255-337 | a body sealed under one scope opens under another exactly when both are written alike |
| SecretCodec.ValidScopesSameFields | crates/credentials-core/src/agent_secret_validation.rs:44-68 | accepted scopes are written alike exactly when they are equal |
| SecretCodec.SealedOpensOnlyUnderItsScope | crates/credentials-core/src/agent_secret.rs:255-337 | between accepted scopes a body opens only under its own, and then yields the sealed material |
| SecretCodec.EmptyPrefixAliasesNone | crates/credentials-core/src/agent_secret.rs:161-178 | without validation, an empty path prefix opens what no prefix sealed |
| SecretCodec.DepositAad | crates/credentials-core/src/agent_secret.rs:227-246 | succeeds exactly for a valid name and an encodable scope and writes the associated data |
| SecretCodec.AadInjective | crates/credentials-core/src/agent_secret.rs:227-246 | the associated data determines deposit, member, name and accepted scope |
| SecretCodec.BindingSplits | crates/credentials-core/src/agent_secret.rs:270-285 | a binding splits at its bars into exactly its four components |
| SecretCodec.RecordBindingInjective | crates/credentials-core/src/agent_secret.rs:270-285 | a binding determines kind, incarnation and name |
| SecretCodec.DepositKeysAreNoBindings | crates/credentials-core/src/agent_secret.rs:98-107 | no record binding is a deposit key |
| BitStream.RunTracks | crates/credentials-core/src/apns.rs:206-224 | the never-masked 32-bit accumulator, digits or-ed in, writes exactly the leading bytes of the number its digits denote |
| BitStream.ByteOfAccumulator | crates/credentials-core/src/apns.rs:216-221 | truncation to 32 bits never touches a byte taken off |
| Base64.Base64DecodeStandard | crates/credentials-core/src/apns.rs:206-224 | the loop computes the stream decoding, refusing exactly on a foreign byte |
| Base64.DecodedIsBigInteger | crates/credentials-core/src/apns.rs:206-224 | the decoding has floor(6n/8) bytes and is the leading part of the base-64 number |
| Base64.WordIsSum | crates/credentials-core/src/apns_submit.rs:167-172 | or-ing the three shifted bytes of a chunk is adding them: they do not overlap |
| Base64.Base64Standard | crates/credentials-core/src/apns_submit.rs:163-187 | the chunk loop writes the concatenation of the encoded chunks |
| Base64.EncodedValue | crates/credentials-core/src/apns_submit.rs:163-187 | the sextets written denote the input's number shifted by the padding bits |
| Base64.RoundTrip | crates/credentials-core/src/apns_submit.rs:163-187 | decoding an encoding returns the bytes, for every byte string (section 4 of RFC 4648) |
| Totp.DecodeSeed | crates/credentials-core/src/agent_secret_totp.rs:5-69 | the streaming decoder accepts exactly base32 text and computes the stream decoding |
| Totp.SeedIsBigInteger | crates/credentials-core/src/agent_secret_totp.rs:5-69 | the seed has floor(5n/8) bytes and is the leading part of the base-32 number (section 6 of RFC 4648) |
| Totp.ValidateOtpauth | crates/credentials-core/src/agent_secret_validation.rs:188-237 | accepts exactly the URIs with a good head, distinct good parameters and a secret |
| Totp.LookupValid | crates/credentials-core/src/agent_secret_validation.rs:206-228 | the secret and period read back from an accepted URI passed their checks |
| Totp.CounterBytes | crates/credentials-core/src/agent_secret_totp.rs:5-69 | the eight counter bytes denote the number of whole periods |
| Totp.OneTimePassword | crates/credentials-core/src/agent_secret_totp.rs:5-69 | succeeds exactly on accepted URIs from the epoch on; 6 or 8 digits denoting the truncated HMAC (section 5.3 of RFC 4226) reduced to that many |
| Ulid.RequestId | crates/credentials-core/src/agent_secret_use.rs:181-199 | succeeds exactly for a 48-bit time and available randomness and writes the 128-bit value |
| Ulid.Assemble | crates/credentials-core/src/agent_secret_use.rs:188-191 | bitwise or-ing of the shifted random bytes yields time above, randomness below |
| Ulid.WriteText | crates/credentials-core/src/agent_secret_use.rs:181-199 | filling the array from the back writes the base-32 digits in order |
| Ulid.IdLossless | crates/credentials-core/src/agent_secret_use.rs:181-199 | the 26 characters decode back to the 128-bit value |
| Ulid.IdInjective | crates/credentials-core/src/agent_secret_use.rs:181-199 | ids are equal exactly when their times and random bytes are |
| Ulid.IdOrderFollowsTime | crates/credentials-core/src/agent_secret_use.rs:181-199 | lexicographic order follows time whatever the random bytes are |
| Ulid.IssuedIdAccepted | crates/credentials-core/src/agent_secret_approval.rs:299-305 | every issued id passes the envelope's request-id check |
| Approval.SortedFlowMethods | crates/credentials-core/src/agent_secret_approval.rs:88-102 | succeeds exactly on non-empty duplicate-free valid lists and returns a strictly increasing permutation |
| Approval.IncreasingUnique | crates/credentials-core/src/agent_secret_approval.rs:88-102 | strictly increasing lists over one set are one list |
| Approval.MethodListIsCanonical | crates/credentials-core/src/agent_secret_approval.rs:88-102 | sorted lists are equal exactly when the method sets are |
| Approval.FlowApprovalStatement | crates/credentials-core/src/agent_secret_approval.rs:107-156 | succeeds exactly for an accepted flow, scope and method pairing and builds the statement |
| Approval.FlowApprovalStatementForAsker | crates/credentials-core/src/agent_secret_approval.rs:162-203 | succeeds exactly for an accepted flow whose id is no second tag, and builds the signed object; without an asker the local one |
| Approval.FlowStatementsAreCanonical | crates/credentials-core/src/agent_secret_approval.rs:123-156 | flow statements are equal exactly when request, name, flow, scope and method set agree |
| Approval.ApprovalStatementInjective | crates/credentials-core/src/agent_secret_approval.rs:17-37 | use statements over accepted scopes are equal exactly when request, call and scope are |
| Approval.ApprovalStatementForAsker | crates/credentials-core/src/agent_secret_approval.rs:43-58 | assigning asker and tag builds the signed object; without an asker the local one |
| Approval.ForwardingIsFaithful | crates/credentials-core/src/agent_secret_approval.rs:43-58 | a forwarded use or flow statement erases to the local one and equals no local statement of either kind |
| Approval.SignedIsCanonical | crates/credentials-core/src/agent_secret_approval.rs:17-203 | over accepted scopes, signed objects of any kinds are equal exactly when kind, asker, request, scope and call, or name, flow and method set, agree |
| Approval.ItemsOk | crates/credentials-core/src/agent_secret_approval.rs:285-312 | accepts exactly one to sixteen well-formed items without a repeated request |
| WatchTracker.Tracker.constructor | crates/claustrum-client/src/watch.rs:47-55 | a new tracker has acknowledged nothing |
| WatchTracker.Tracker.OnInventoryRead | crates/claustrum-client/src/watch.rs:57-59 | the whole next state after an acknowledged inventory |
| WatchTracker.Tracker.OnKeysRead | crates/claustrum-client/src/watch.rs:60-62 | the whole next state after acknowledged keys |
| WatchTracker.Tracker.OnOpened | crates/claustrum-client/src/watch.rs:64-69 | the whole next state after a subscription opens |
| WatchTracker.Tracker.OnNotice | crates/claustrum-client/src/watch.rs:71-83 | the whole next state and the answer to a notice |
| WatchTracker.Tracker.OnClosed | crates/claustrum-client/src/watch.rs:85-96 | the whole next state and the answer to the end of a stream |
| WatchTracker.Tracker.OnListResult | crates/claustrum-client/src/watch.rs:100-111 | the whole next state and the answer to the confirming list read |
| WatchTracker.Tracker.OnRouteLost | crates/claustrum-client/src/watch.rs:113-120 | the whole next state and the answer to a lost route |
| WatchTracker.Tracker.OnUnknownMethod | crates/claustrum-client/src/watch.rs:122-126 | the whole next state and the answer to an unsupported method |
| WatchTracker.Tracker.OnRefused | crates/claustrum-client/src/watch.rs:128-132 | the whole next state and the answer to a refusal |
| WatchTracker.StateIsHistory | crates/claustrum-client/src/watch.rs:57-132 | after every run the tracker remembers exactly what the calls said |
| WatchTracker.RereadIff | crates/claustrum-client/src/watch.rs:71-83 | the inventory stays unread exactly on the same-epoch successor whose view was acknowledged; keys go by digest |
| WatchTracker.QuietNoticesAreConsecutive | crates/claustrum-client/src/watch.rs:71-83 | in every run, a notice answered without an inventory read directly succeeds the one before it |
| WatchTracker.RetryBudget | crates/claustrum-client/src/watch.rs:85-132 | from any state, what is left of a subscription's one retry and one list read |
| WatchTracker.OneReconnectPerSubscription | crates/claustrum-client/src/watch.rs:64-132 | between two openings at most one retry and one list read, the latter only if no notice came |
| WatchTracker.AfterTheEnd | crates/claustrum-client/src/watch.rs:85-132 | after the end only a stop comes back, or the fallback of an unknown method |
| WatchSystem.RunsKeepInvariant | crates/credentials-module/src/watch_scoped.rs:261-317 | the invariant between commits, producer, network and consumer holds in every run, refusals and stops of the producer included |
| WatchSystem.NoMissedInventoryChange | crates/claustrum-client/src/watch.rs:57-83 | with every ordered read done, the inventory held matches the last processed notice or was read after it |
| WatchSystem.NoNoticeGoesMissing | crates/claustrum-client/src/watch.rs:71-83 | with every ordered read done, each notice numbered up to the last processed one was itself processed, or the inventory held was read after its snapshot |
| WatchSystem.SettledConsumerIsCurrentIff | crates/credentials-module/src/watch_scoped.rs:261-317 | when nothing is in flight, the consumer is current exactly when its last read agrees with its last notice; always if views never return |
| WatchSystem.SettledConsumerCanBeStale | crates/credentials-module/src/watch_scoped.rs:261-317 | a concrete run, of notices the client decodes, whose settled consumer holds a view that is gone |
| WatchReader.ReadScopedWatch | crates/claustrum-client/src/watch.rs:256-346 | forwards exactly the notices before the first deciding frame, in order, or ends at a full queue; its outcome is what that frame means |
| Client.RefusalClasses | crates/claustrum-client/src/lib.rs:1870-1914 | a refusal inside a reply never looks like a broken connection, and only a producer's transient class is retryable |
| Client.CorrelationsDistinct | crates/claustrum-client/src/lib.rs:1275-1279 | requests within 2^64 of each other carry different numbers |
| Client.CorrelationsIncrease | crates/claustrum-client/src/lib.rs:1275-1279 | numbers increase until the counter wraps |
| Client.Connection.NextCorrelation | crates/claustrum-client/src/lib.rs:1275-1279 | returns the counter and advances it with wrap-around |
| Client.Connection.ReadReply | crates/claustrum-client/src/lib.rs:1469-1499 | returns the first matching frame and consumes everything up to it, or a transport error |
| Client.Connection.CredentialRequest | crates/claustrum-client/src/lib.rs:1404-1430 | outcome and new state are what the frames say; against an echoing peer the reply answers this very request, whatever stale, repeated or foreign frames precede it |
| Client.Target.ConnectIfNeeded | crates/claustrum-client/src/lib.rs:976-984 | dials exactly when nothing is cached |
| Client.Target.ClearFailedTransport | crates/claustrum-client/src/lib.rs:992-1002 | drops the connection exactly on a transport-class outcome and leaves it as it was on any other |
| Client.Target.Call | crates/claustrum-client/src/lib.rs:992-1046 | the outcome is the dial error, the deadline, or the outcome of this request on the cached or dialled connection; the connection is dropped exactly on a transport-class outcome |
| Client.Target.Resolve | crates/claustrum-client/src/lib.rs:684-708 | attempt i is what turn i yields, decoded; at most `transient_retries + 1` attempts; the result is the first success, the first final error or the last error; a success was decoded from the reply to the last request |
| Client.BrokenNeverUsedAgain | crates/claustrum-client/src/lib.rs:986-1002 | in every run a connection that produced a transport error is never used again |
| Client.OtherOutcomesKeepConnection | crates/claustrum-client/src/lib.rs:986-1002 | after any other outcome the next event is a call on the same connection |
| Client.DialOnlyAfterBreak | crates/claustrum-client/src/lib.rs:976-984 | a dial happens only after every earlier connection broke |
| Client.RefusedReplyKeepsConnection | crates/claustrum-client/src/lib.rs:1978-1984 | a typed refusal inside a reply is no transport error and leaves the connection cached |
| RefreshEngine.StepKeepsInvariant | crates/credentials-core/src/engine.rs:507-793 | every step of engine, provider, operator and environment keeps the token invariant, exchanges abandoned in a living instance included |
| RefreshEngine.RunsKeepInvariant | crates/credentials-core/src/engine.rs:507-793 | the invariant holds in every reachable state |
| RefreshEngine.OnlyDoubtfulTokensAreReused | crates/credentials-core/src/engine.rs:507-687 | a spent token is presented again only if a wrong guess put or left it in service |
| RefreshEngine.RightGuessesAreHarmless | crates/credentials-core/src/engine.rs:507-793 | if at every guess the provider still took the token and nothing on its way could spend it, no token is ever presented after it was spent |
| RefreshEngine.UnsentFailureIsRight | crates/credentials-core/src/engine.rs:659-685 | a refresh that fails before its request leaves is such a guess, from every state without a wrong one |
| RefreshEngine.NoTokenIsSpentTwice | crates/credentials-core/src/engine.rs:507-793 | in a run without any guess no token is ever presented after it was spent, wherever the vault crashes |
| RefreshEngine.SafeIffNothingIsGuessed | crates/credentials-core/src/engine.rs:507-793 | for every set of kinds of guesses: runs limited to them are safe exactly when the set is empty |
| RefreshEngine.FailedReplyCanGoWrong | crates/credentials-core/src/engine.rs:659-685 | a run whose only guesses are failed replies presents a spent token |
| RefreshEngine.EmptyReplyCanGoWrong | crates/credentials-core/src/engine.rs:535-543 | the same with replies that carry no access token |
| RefreshEngine.PassedCheckCanGoWrong | crates/credentials-core/src/engine.rs:759-775 | the same with a truthful validity check that races the request of a lost instance |
| RefreshEngine.ReactivationCanGoWrong | crates/credentials-core/src/store.rs:5775-5821 | the same with an operator who reactivates a record that boot took out of service |
| RefreshEngine.StoredFileCanGoWrong | crates/credentials-core/src/store.rs:4599-4666 | the same with an operator who imports a file again after the vault refreshed away from it |
| RefreshEngine.EachVersionRefreshedOnce | crates/credentials-core/src/store.rs:5935-5991 | committed refreshes start from strictly increasing versions |
| RefreshEngine.ServedTokenIsLive | crates/credentials-core/src/engine.rs:317-453 | an undoubted token in service is the one the provider takes, and no lost instance can spend it |
| RefreshEngine.ReconcileFailsSafe | crates/credentials-core/src/engine.rs:701-793 | boot spends nothing, leaves no open intent in service, and restores service only on a passed check |
| RefreshEngine.RefusalEndsService | crates/credentials-core/src/engine.rs:637-658 | a refused presentation takes the record out of service |
| WorkflowReader.StripCommentLoop | scripts/lib/workflow-gates.py:50-63 | the quote-tracking loop cuts at the first comment outside quotes |
| WorkflowReader.SplitKeyLoop | scripts/lib/workflow-gates.py:66-79 | the quote-tracking loop splits at the first key-ending colon outside quotes |
| WorkflowReader.Undashed | scripts/lib/workflow-gates.py:148-161 | rewriting a dashed line changes no other line and starts strictly further right |
| WorkflowReader.BlockEnd | scripts/lib/workflow-gates.py:117-126 | a block scalar ends at the first line with text that is not further right than its key |
| WorkflowReader.ParseSequence | scripts/lib/workflow-gates.py:140-162 | terminates on every line array; the cursor only moves forward, never passes the end, and only lines it was on change |
| WorkflowReader.ParseItem | scripts/lib/workflow-gates.py:148-161 | one turn moves the cursor on, or leaves a line further right than the dash was |
| WorkflowReader.ParseMapping | scripts/lib/workflow-gates.py:164-189 | the same, and a mapping that reads no line changes none |
| WorkflowReader.Parse | scripts/lib/workflow-gates.py:131-138 | the same for the dispatching rule |
| WorkflowReader.ReadReachesEndOrStray | scripts/lib/workflow-gates.py:131-189 | what the line looks like a read stops at: text in another column, a dash where keys stand, or a key where dashes stand |
| WorkflowScan.ReadStopsWhereScanStops | scripts/lib/workflow-gates.py:131-189 | for every file: a read gets exactly as far as one pass over the lines that keeps only the columns of the open blocks; it reaches the end exactly when every line finds its place |
| WorkflowScan.LevelStopsWhereScanStops | scripts/lib/workflow-gates.py:140-189 | the same for a mapping and a sequence, whatever was read of them before |
| WorkflowScan.BarrierStopsLevel | scripts/lib/workflow-gates.py:140-189 | no mapping or sequence gets past a line with content left of its column, or in its column without belonging to it, whatever precedes that line |
| WorkflowScan.DashInKeyColumnStopsTheRead | scripts/lib/workflow-gates.py:164-171 | in a file that starts with a key, an item anywhere in the keys' column ends the read |
| WorkflowReader.Reader.Skip | scripts/lib/workflow-gates.py:103-108 | moves to the first line with content |
| WorkflowReader.Reader.AtEnd | scripts/lib/workflow-gates.py:110-112 | skips blanks and says whether lines are left |
| WorkflowReader.Reader.BlockScalar | scripts/lib/workflow-gates.py:114-129 | reads to the end of the block and folds what it collected |
| WorkflowReader.Reader.ParseNode | scripts/lib/workflow-gates.py:131-138 | the mutable reader computes the recursive parse, lines and cursor included |
| WorkflowReader.Reader.ReadSequence | scripts/lib/workflow-gates.py:140-162 | the loop computes the recursive sequence rule |
| WorkflowReader.Reader.ReadItem | scripts/lib/workflow-gates.py:148-161 | one turn of the loop computes the item rule, the rewritten line included |
| WorkflowReader.Reader.ReadMapping | scripts/lib/workflow-gates.py:164-189 | the loop computes the recursive mapping rule |
| WorkflowReader.Reader.ReadValue | scripts/lib/workflow-gates.py:176-188 | computes the value rule |
| WorkflowText.CommentTail | scripts/lib/workflow-gates.py:50-63 | any comment behind a text that leaves no quote open is taken off again |
| WorkflowText.KeyWithValue | scripts/lib/workflow-gates.py:50-79 | a line of a key, any blanks and a value splits at the key again and loses nothing to comments, by the two scanners' own tests |
| WorkflowText.AtomReads | scripts/lib/workflow-gates.py:82-86 | plain and quoted text is read as the text |
| WorkflowText.FlowReads | scripts/lib/workflow-gates.py:89-91 | a flow list is read as its parts, in order, quotes taken off |
| WorkflowText.BlockReads | scripts/lib/workflow-gates.py:114-129 | the lines of a block scalar, however far indented, are collected exactly, up to what follows |
| WorkflowText.LiteralKeepsLines | scripts/lib/workflow-gates.py:129 | cutting a literal block at its line feeds gives its lines back |
| WorkflowText.FoldedIsOneLine | scripts/lib/workflow-gates.py:127-128 | in a folded block a line break reads as a blank and empty lines do not show |
| WorkflowRoundTrip.ValueRead | scripts/lib/workflow-gates.py:176-188 | every kind of value behind a key is read as it is meant, and no line with content beyond it |
| WorkflowRoundTrip.RoundTrip | scripts/lib/workflow-gates.py:94-189 | every tree of mappings, sequences, plain and quoted text, flow lists, block scalars and empty values is read back as itself, to the last line, for any nesting columns, padding, blank and comment lines and trailing comments |
| WorkflowRoundTrip.FoldedConditionReadsAsOneLine | scripts/lib/workflow-gates.py:11-18 | a condition folded over any lines is read as if it stood on its key's line |
| WorkflowRoundTrip.ItemTextIsText | scripts/lib/workflow-gates.py:154-158 | whatever stands behind a dash and is no key is read as text |
| WorkflowRoundTrip.MarkedItemIsText | scripts/lib/workflow-gates.py:154-158 | a flow list or the head of a block scalar behind a dash is read as the text it is written with |
| WorkflowRoundTrip.BareDashIs | scripts/lib/workflow-gates.py:150-153 | in every file, a bare dash is read as nothing exactly when no content follows; otherwise, unless the next content is two columns in, as an empty list exactly before a dash and an empty mapping before anything else |
| WorkflowRoundTrip.KeyBeforeDashIsEmpty | scripts/lib/workflow-gates.py:185-186 | a key whose next content stands in its own column is read as if it had no value |
| WorkflowRoundTrip.UnquotedSpellings | scripts/lib/workflow-gates.py:50-86 | texts with an inner colon, an inner hash or a leading dash need no quotes, behind a key or a dash |

## Left out

- Cryptography: HMAC is an arbitrary function; HPKE, AEAD, ECDSA and the envelope around a sealed body are not modelled.
- The network: sockets, timeouts and frame encoding are parameters of each call.
- JSON text, URL parsing and locale: statements are maps over a closed set of keys and URLs are already split.
- WorkflowRoundTrip.RoundTrip: lines without content directly after a block scalar are laid out only if they start with a comment in the first column, because the reader takes others for part of the block; a listing inside a listing is laid out exactly two columns in, because the reader looks nowhere else; blanks before a colon are not laid out.
- Client.CorrelationsIncrease: states an increase only below 2^64 requests, because the counter wraps there.
- Client.Target.Resolve: the signing and public-key loops are the same loop and are not repeated.
- WatchSystem.SettledConsumerIsCurrentIff: a producer whose last snapshot failed, or that has ended, does not count as settled.
- RefreshEngine.StepKeepsInvariant: one credential; another custodian who goes on using an imported token, the stale mark, deletion, re-creation, the stale-report cooldown and access-token expiry are not modelled, and asynchronous tasks are steps of a state machine.
- Approval.SortedFlowMethods: the library sort is modelled by an insertion sort on values, so sorting in place is not captured.
- SecretCodec.Fields.NextText: host, path and location texts of a scope are bytes; only material texts carry a UTF-8 check.
- The store's SQL, migrations and federation: only the audit append and the refresh-intent transactions are modelled.
- Command-line and admin tables, catalogs, plan tiers and other scripts: lookups that would only add easy members.
