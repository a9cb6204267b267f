# backendkit: verified models of its caches, stores and protocols

This project models the stateful core of the Go library `backendkit` in Dafny and proves
properties of whole runs of it. Time is a number the environment advances; the network (token
endpoint, key endpoint, decision point) is an oracle limited only by what each statement says;
a block held under a mutex is one step; a single-flight group runs one flight per key whose
result every joiner receives.

What is proved, by component:

- **Fixture generator and checker** (`Text`, `Base64`, `Fixture`, `Resolver`, `Placeholders`,
  `Matcher`, `MatchLaws`, `Visits`, `Samples`, `RoundTrip`, `Determined`, `Productions`,
  `EveryOrder`, `KeyDocuments`). Which strings are placeholders and what each named one yields.
  The checker reports nothing exactly on the documents of a declarative conformance relation,
  and keys and time order are exact at every depth. A template whose values are all given is
  accepted in exactly the documents the generator yields, and each open placeholder refuses
  exactly the values without its shape. Generator and checker visit the fixture's maps in orders
  of their own: what the one produces the other always accepts if and only if the template is
  well-formed and entries whose keys expand alike fit each other, which is decided by going
  through the two templates side by side; with distinct keys that is well-formedness alone.
  The key-set documents have exact conditions of their own, for one order and for all.
- **Sessions** (`Sessions`, `StoreRuns`, `Refresh`, `Freshness`, `MemoryGateway`). Over every
  interleaving of requests, refresh flights, write-backs, logouts and sweeps, no refresh token is
  presented again after it succeeded, a request is forwarded with a token that had head-room when
  it was read or was just issued, the server is asked only without head-room, a deleted id stays away for exactly an hour, and nothing extends the
  absolute lifetime; for requests one at a time the recorded last-seen never lags by a touch
  interval, touches are spaced by it, a session attended from its login on never idles out, and
  one left alone for the idle time is gone.
- **Row-backed sessions** (`PostgresStore`, `Gateway`). Columns and sealed snapshot agree, the
  sweep removes what a read refuses, stored snapshots carry the last issued tokens, attended
  sessions never idle out, nothing extends the absolute lifetime.
- **Signing-key cache** (`Jwks`, `JwksFlights`, `JwksAnswers`). Exact bounds on how stale a found
  or a missing key may be; whatever the endpoint answers, the last keys it gave are served and a
  failed fetch falls back on them; fetches never overlap and keep their distance.
- **Scoped service tokens** (`Lru`, `Scopes`, `ScopedTokens`). One cache key per scope set; the
  cache holds exactly the sixteen most recently asked sets; a token is never older than the last
  invalidation before the lookup and has half a minute left, or was just exchanged.
- **Language validator** (`Validator`). One verdict per JSON document, whatever order its
  objects are visited in: three fifths of the stopwords found are the locale's own.
- **Narration cache** (`Narration`, `NarrationRuns`). A map and an in-place-shifted slice refine
  one recency list with a time-to-live.
- **Pending logins** (`PendingLogins`). The bounded, lazily swept store answers as an ideal one.
- **Policy enforcement point** (`Pep`) and **feature-policy cache** (`PolicyCache`). What passes
  and what is refused over every history of answers and errors; reads see every update that has
  returned, and a list read less than the cache TTL before.

Five promises turned out to hold only under a condition, which is proved to be exact:

- The fixture round trip fails for templates whose keys collide after the namespace is put in,
  because two passes over a map may let different entries win (`EveryOrder.NamespaceCollides`,
  `EveryOrder.RoundTripInEveryOrder`).
- A document accepted for a template of given values is one the generator yields, except where a
  given audience is empty: the checker then takes any value that is not a string for it
  (`Determined.AudiencesAreExactIff`).
- A newly published key resolves, and a withdrawn one is forgotten, within the larger of the two
  configured intervals only if no time passes between the endpoint's answer and the stamps taken
  after it; in general that delay is added to the negative-cache TTL and to the cache TTL
  (`Jwks.PublishedKeyResolves`, `Jwks.WithdrawnKeyIsForgotten`).
- The enforcement point calls all obligations met although one is not when an obligation with an
  empty name follows only met ones, because "" also stands for "none unmet"
  (`Pep.MissesNothingIff`). The comment in `pep/pep.go` says an obligation that cannot be
  honoured is treated as unmet; the model follows the code. `Pep.EmptyObligationPasses` is such
  an input.
- A stricter floor passes what a weaker one refuses exactly for a refusing answer that carries no
  mode, under floors off and shadow (`Pep.StricterPassesMoreIff`,
  `Pep.ShadowPassesWhatOffDenies`).

## Model

| member | source | states |
|---|---|---|
| Text.SortKeys | conformance/match.go:362-369 | collecting and sorting a map's keys gives the one strictly ascending listing, whatever order the map yields them in |
| Text.SortedIsUnique | conformance/match.go:362-369 | a set of strings has a single strictly ascending listing |
| Text.LessIff | conformance/match.go:362-369 | the order of keys: at the first difference the smaller character, or the shorter text, comes first |
| Text.ReplaceAllRejoins | conformance/conformance.go:289-294 | replacing puts the new text between the same pieces, none of which holds the old |
| Text.ValueOfDecimal | conformance/conformance.go:343-348 | the numeral of a number has its value and no leading zero |
| Placeholders.ParseWithArgument | conformance/conformance.go:198-206 | a name, a colon and an argument are read as that kind with that argument |
| Placeholders.ParseBare | conformance/conformance.go:198-206 | a name alone has the empty argument |
| Placeholders.PlaceholderIff | conformance/conformance.go:198-206 | nothing else is a placeholder |
| Placeholders.ParseOfMark | conformance/conformance.go:198-206 | writing a kind with its name and reading it back gives the kind and the argument |
| Placeholders.KindOfName | conformance/conformance.go:334-417 | each kind has a name of its own |
| Placeholders.NameOfKind | conformance/conformance.go:334-417 | a known name is that of its kind |
| Placeholders.TextsYielded | conformance/conformance.go:337-360 | issuer, client_id, sub, role, email, name and tenant_id: what is given, or the stated default |
| Placeholders.TimesYielded | conformance/conformance.go:373-401 | iat, nbf, auth_time in whole seconds, and token_version |
| Placeholders.LifetimesYielded | conformance/conformance.go:380-389 | exp, expires_in and refresh_exp from the given or default lifetimes |
| Placeholders.ApplicationsYielded | conformance/conformance.go:343-352 | app_sub and app_roles |
| Placeholders.TokensYielded | conformance/conformance.go:409-414 | the three tokens: as given, refused when not |
| Placeholders.ArgumentsYielded | conformance/conformance.go:361-372 | scope and attribute by their argument, an attribute of another name refused |
| Placeholders.DrawnYielded | conformance/conformance.go:357-408 | nonce, jkt, at_hash, jti and kid: the given value, or any of the drawn shape |
| Placeholders.UnknownIsRefused | conformance/conformance.go:416 | any other name cannot be resolved |
| Placeholders.AudiencesYielded | conformance/conformance.go:269-288 | all audiences, or the one default |
| Placeholders.NamespaceYielded | conformance/conformance.go:234 | a key that starts with <ns> starts with the given or default namespace, a key without it stays |
| Fixture.Expected | conformance/match.go:133-136 | the renamed keys of a template object, the last entry visited winning when two renamings collide |
| Resolver.Value | conformance/conformance.go:334-417 | a placeholder is filled exactly when it is known and its parameters are there, with a value of that placeholder's shape and source |
| Base64.Encode | conformance/conformance.go:244-248 | n bytes give the integer part of (4n + 2) / 3 characters, all of the base64url alphabet |
| Base64.DecodeOfEncode | conformance/conformance.go:244-255 | decoding gives the bytes back, so different bytes have different texts |
| Base64.EncodesVectors | conformance/conformance.go:244-248 | test vectors of section 10 of RFC 4648 and the two URL-safe characters |
| Resolver.AtHashShape | conformance/conformance.go:252-255 | the left half of a 32-byte digest has a 22-character text |
| Resolver.AtHashIsLeftHalf | conformance/conformance.go:252-255 | at_hash decodes to the left half of the digest |
| Resolver.Draw | conformance/conformance.go:357-408 | nonce, token id, key id, at_hash and thumbprint: the given value, the hash of the given token, or a random one |
| Resolver.Resolve | conformance/conformance.go:257-298 | the generator succeeds exactly on resolvable templates and then yields one of the documents the template denotes; Placeholders says what each named placeholder yields |
| Resolver.ResolveObject | conformance/conformance.go:259-268 | object entries in any order, keys renamed, later entries overwriting earlier ones |
| Resolver.ResolveArray | conformance/conformance.go:269-288 | items in order, the audience placeholder spread into all audiences |
| Resolver.ResolveJwks | conformance/conformance.go:301-332 | one filled entry per key; refused exactly without keys, without a single key template, or when a key cannot fill it |
| Resolver.FillEntry | conformance/conformance.go:315-325 | the entry published for one key |
| Matcher.RuleErrors | conformance/match.go:215-320 | a placeholder rule appends an error exactly when the value does not satisfy it |
| Matcher.ExtraErrors | conformance/match.go:145-149 | exactly the unexpected keys are reported |
| Matcher.Checker.Match | conformance/match.go:79-130 | appends to the error list exactly the errors of the recursive specification, in order |
| Matcher.Checker.MatchObject | conformance/match.go:132-156 | missing, mismatched and extra keys and time order of an object, in the order they are found |
| Matcher.Checker.MatchArray | conformance/match.go:158-212 | lengths, the audience tail, the key list, and items pairwise |
| Matcher.Checker.MatchKeys | conformance/match.go:137-144 | each expected key, in key order: missing, or its value's errors |
| Matcher.Checker.FindExtras | conformance/match.go:145-149 | the unexpected keys, in key order |
| Matcher.Checker.MatchEach | conformance/match.go:164-166 | every published key against the one key template |
| Matcher.Checker.MatchPairs | conformance/match.go:182-211 | the first items pairwise, in order |
| Matcher.Checker.MatchAudiences | conformance/match.go:185-203 | a pinned audience list is compared in length and item by item, an open one must hold non-empty strings |
| Matcher.Checker.MatchRest | conformance/match.go:191-202 | the loop over the audience tail |
| Matcher.Checker.Rule | conformance/match.go:215-320 | one placeholder's rule on one value |
| Matcher.Checker.WantStr | conformance/match.go:217-229 | the four-way string check reports exactly the values that are not a string equal to the exact value, or of the shape, or non-empty |
| Matcher.Checker.WantInteger | conformance/match.go:230-235 | truncating and comparing reports exactly the values that are not whole numbers of at least one |
| Matcher.Checker.WantToken | conformance/match.go:269-276 | reports exactly the values that are not a compact JWS, or not the given one |
| Matcher.Checker.RuleStr | conformance/match.go:237-278 | each string placeholder's own branch decides its declarative rule |
| Matcher.Checker.RuleOther | conformance/match.go:263-296 | thumbprint, attribute and token version |
| Matcher.Checker.RuleAppRoles | conformance/match.go:297-316 | role entries are checked in key order |
| Matcher.BuildExpected | conformance/match.go:133-136 | the loop that renames expected keys |
| Matcher.NoErrorsIffConforms | conformance/match.go:79-212 | the checker reports nothing exactly on the documents satisfying the declarative conformance relation; Determined says which those are |
| MatchLaws.KeysAreExactAtEveryDepth | conformance/match.go:132-156 | in an accepted document, every object the template spells out, at any depth, has exactly its keys |
| MatchLaws.TimesAreOrderedAtEveryDepth | conformance/match.go:150-155 | in an accepted document every such object with both times as numbers has exp after iat |
| MatchLaws.OrderIndependent | conformance/match.go:132-150 | while no two keys expand alike, the verdict is the same for every visiting order of the template's objects; Visits.TakesIff is about all templates |
| RoundTrip.LeafRoundTrip | conformance/conformance.go:334-417 | a generated placeholder value satisfies its own rule exactly under the stated conditions on the parameters |
| RoundTrip.LiteralRoundTrip | conformance/match.go:100-115 | a literal with issuers replaced is recognised exactly when the issuer is pinned or occurs at most once |
| RoundTrip.ReplacedHasNoToken | conformance/conformance.go:289-294 | replacing every issuer token leaves none behind |
| RoundTrip.RoundTrip | conformance/conformance.go:257-298 | generator and checker in the same visiting order: accepted if and only if the template is well-formed; EveryOrder.RoundTripInEveryOrder is about all pairs of orders |
| RoundTrip.RoundTripInAnyOrder | conformance/match.go:79-212 | in two different orders, while no two keys expand alike: accepted if and only if the template is well-formed; EveryOrder.RoundTripInEveryOrder also covers keys that expand alike |
| Determined.AcceptedIsGenerated | conformance/match.go:79-320 | for a template whose placeholders are all given and whose literals leave no issuer open, a document without errors is one the generator yields |
| Determined.AcceptedIffGenerated | conformance/match.go:79-320 | if its values also survive their own rules, exactly those are accepted |
| Determined.AudiencesAreExactIff | conformance/match.go:185-195 | given audiences pin the document exactly when none of them is empty |
| Determined.OpenTexts | conformance/match.go:237-278 | an open issuer, client_id, role, name, nonce or scope refuses exactly what is not a non-empty string |
| Determined.OpenShapes | conformance/match.go:241-260 | open sub, app_sub, email, tenant_id, and jti and kid: exactly digits, "app:" and digits, a mailbox, five hexadecimal groups |
| Determined.OpenEncodings | conformance/match.go:261-268 | at_hash, n and an open jkt: exactly texts over the base64url alphabet, of 43 characters for jkt |
| Determined.OpenTokens | conformance/match.go:268-276 | an open token: exactly three such texts joined by dots |
| Determined.OpenNumbers | conformance/match.go:230-235 | times and an open token version: exactly the whole numbers from one on |
| Determined.OpenAttributes | conformance/match.go:279-284 | an attribute that is not given: anything but null |
| Determined.OpenRoles | conformance/match.go:297-316 | exactly non-empty maps of roles that name the given client with the given role |
| Determined.OpenLiterals | conformance/match.go:105-115 | a literal with an open issuer: itself, or with a non-empty text in place of the first issuer |
| Determined.UnknownAcceptsNothing | conformance/match.go:317-318 | an unknown placeholder accepts nothing |
| Visits.ProducedObject | conformance/conformance.go:259-268 | in an object each key's value comes from one of the entries that expand to it |
| Visits.ProducesObject | conformance/conformance.go:259-268 | any choice among such entries, for all keys at once, is made by some visiting order |
| Visits.AcceptsObjectIff | conformance/match.go:132-156 | every visiting order accepts an object exactly when each value is accepted by all entries that expand to its key |
| Visits.AcceptsArrayIff | conformance/match.go:158-212 | every visiting order accepts an array exactly when lengths and audience tail are right and each item is accepted in all orders by the template item that judges it |
| Visits.TakesIff | conformance/match.go:79-212 | for all templates and documents: acceptance in every visiting order is one recursion through the template in which every entry must take the value under its expanded key |
| Samples.SampleResolves | conformance/conformance.go:257-298 | the two samples of a string, number or placeholder are among its results |
| Samples.LeafTakesAll | conformance/match.go:95-130 | a string or placeholder that takes both samples of a drawn value takes every value that can be drawn |
| Productions.ProducedArray | conformance/conformance.go:269-288 | in every order an array's items are the results of its parts in order, the audience placeholder spread |
| Productions.ProducesArray | conformance/conformance.go:269-288 | any choice of a result for each part is made by some order |
| Productions.AnyResult | conformance/conformance.go:257-298 | whatever can be resolved has a result |
| Productions.ResolvedCanResolve | conformance/conformance.go:257-298 | and what has a result can be resolved |
| EveryOrder.OnlyIff | conformance/conformance.go:257-298 | a template yields one given value in every order and draw exactly when it spells that value out |
| EveryOrder.RolesIff | conformance/match.go:297-316 | every result of an object satisfies the role map's rule exactly when it has entries, all of them yield only role entries, the client is named, and a given role is the one value under that name |
| EveryOrder.FitsToIff | conformance/match.go:79-212 | every result of one template is accepted by another in all orders exactly when the two fit, going through both side by side |
| EveryOrder.OrderProofIff | conformance/match.go:79-212 | a template accepts all its own results in all orders exactly when leaves and arrays are well-formed and entries whose keys expand alike fit each other |
| EveryOrder.RoundTripInEveryOrder | conformance/conformance.go:257-298 | no pair of orders, one for the generator and one for the checker, is ever rejected if and only if leaves and arrays are well-formed, entries whose keys expand alike fit each other side by side, and every iat precedes every exp |
| EveryOrder.DistinctOrderProof | conformance/conformance.go:257-298 | while no two keys expand alike, that condition is well-formedness |
| EveryOrder.CollidingKeysAreRejected | conformance/match.go:133-136 | any two keys that expand alike give a well-formed template, resolved in one order and rejected in the other |
| EveryOrder.NamespaceCollides | conformance/match.go:133-136 | in particular namespace x with keys <ns> and x |
| KeyDocuments.KeyRoundTrip | conformance/match.go:158-168 | one published key is accepted exactly when its names are the expected ones and each filled value conforms to the template its name stands for |
| KeyDocuments.KeyDocumentRoundTrip | conformance/conformance.go:301-332 | for every fixture and key set the generator accepts: the document is accepted if and only if the list of keys stands alone and every key passes |
| KeyDocuments.PublishedInVisit | conformance/conformance.go:301-332 | what is published is the same whatever order the fixture is visited in |
| KeyDocuments.KeyDocumentInEveryOrder | conformance/match.go:79-168 | for every fixture and key set the generator accepts: no visiting order rejects the document if and only if the list of keys stands alone, every entry that expands to its name takes it, and every filled value is taken by all entries that expand to its name |
| KeyDocuments.FilledConformsIff | conformance/conformance.go:316-325 | what a filled or raw value needs to conform to its own template |
| KeyDocuments.PlainDocumentRoundTrip | conformance/conformance.go:301-332 | a plain key template is accepted exactly when the ids it publishes are UUIDs and the moduli base64url |
| Sessions.Session.SetTokens | bff/session.go:60-81 | new tokens replace the old ones, an absent refresh or id token keeps the old one |
| Sessions.MemoryStore.Get | bff/session.go:282-294 | returns the shared live session unless expired; an expired one is deleted with a tombstone |
| Sessions.MemoryStore.Put | bff/session.go:298-305 | a tombstoned id is not stored again |
| Sessions.MemoryStore.Delete | bff/session.go:309-314 | removes the session and leaves a tombstone |
| Sessions.MemoryStore.Sweep | bff/session.go:318-332 | removes exactly the expired sessions, leaving no tombstone for them, and drops exactly the tombstones older than an hour |
| StoreRuns.LiveAndTombstonedStayDisjoint | bff/session.go:282-332 | over every run, no id is both live and tombstoned |
| StoreRuns.DeletedIsNotFoundForAnHour | bff/session.go:282-332 | after a delete, whatever follows, no read finds the id until the clock passes an hour |
| StoreRuns.TheHourIsTight | bff/session.go:318-332 | one tick past the hour a sweep and a late write-back bring it back |
| Refresh.RunKeepsInvariant | bff/gateway.go:155-178 | every interleaving keeps each session's current refresh token unspent and its own |
| Refresh.NoRefreshTokenIsReplayed | bff/gateway.go:155-178 | over every interleaving on one gateway with a rotating server, no refresh token is presented after it succeeded and no request takes the fatal branch |
| Refresh.GatewayRunsAreStoreRuns | bff/gateway.go:239-286 | every interleaving of requests acts on the store as one of the store's runs |
| Refresh.DeletedSessionStaysAway | bff/gateway.go:262-277 | a deleted session stays away for an hour although refreshes and touches in flight still write back |
| Refresh.CreationIsKept | bff/session.go:60-88 | no interleaving changes when a session was created |
| Refresh.AbsoluteLifetimeIsFinal | bff/session.go:266-294 | over every interleaving, a request that reads the clock at or past creation plus the absolute lifetime is turned away for good |
| Refresh.TurnedAwayAt | bff/session.go:266-278 | a request is turned away exactly when it reads the clock at or past a bound that is set |
| Refresh.IdleSessionIsTurnedAway | bff/session.go:266-294 | over every interleaving, a session not seen for the idle time is turned away for good |
| Freshness.RunHasTrace | bff/gateway.go:239-286 | every run is one of the traces these statements are about |
| Freshness.SessionHolds | bff/session.go:60-75 | over every interleaving a session holds the last stored access token, and the storing time plus the last lifetime named as its expiry |
| Freshness.ForwardedTokenIsFresh | bff/gateway.go:155-178 | over every interleaving a forwarded token had head-room when the request or the flight it waited for read it, or was issued to a flight not yet over when the request checked |
| Freshness.ServerIsAskedWithoutHeadRoom | bff/gateway.go:161-166 | the server is asked only when the flight read a session without head-room that still holds what was read |
| Freshness.WaitingHadNoHeadRoom | bff/gateway.go:155-160 | a request waits for a flight only when its own reading showed no head-room |
| Freshness.ForwardedTouchedIfDue | bff/gateway.go:273-277 | over every interleaving a forwarded request wrote its reading of the clock into the session exactly when the last-seen time was a touch interval old |
| Freshness.RefusedOnlyFor | bff/gateway.go:239-272 | a request is refused only because its session was gone or expired, and answered 502 only after the flight it waited for failed |
| MemoryGateway.Proxy.Serve | bff/gateway.go:239-286 | one whole request over the in-memory store: reply, presented refresh token, live sessions changed in place, tombstones |
| MemoryGateway.Proxy.ServeFound | bff/gateway.go:262-286 | a request that holds its session: rejected, failed, or refreshed, touched and forwarded |
| MemoryGateway.LastSeenLags | bff/gateway.go:273-277 | over every run of requests one at a time, the recorded last-seen lags the last forwarded request by less than the touch interval |
| MemoryGateway.AttendedSessionNeverIdlesOut | bff/session.go:266-294 | over the in-memory store, requests at gaps of at most idle minus the touch interval never find the session idle-expired |
| MemoryGateway.UnattendedSessionIdlesOut | bff/session.go:266-294 | over the in-memory store, a session no request of which was forwarded for the idle time is not found |
| MemoryGateway.LastSeenLagsFromLogin | bff/gateway.go:273-277 | the same counted from a login after any run |
| MemoryGateway.NeverIdlesOutFromLogin | bff/session.go:266-294 | a session attended from its login on stays live and every request finds it |
| MemoryGateway.TouchesAreSpaced | bff/gateway.go:273-277 | over the in-memory store touches of one session are at least the touch interval apart |
| MemoryGateway.CreationIsKept | bff/session.go:60-88 | no run changes when a session was created |
| MemoryGateway.AbsoluteLifetimeIsFinal | bff/session.go:266-278 | with whatever touch interval, no run of touches or refreshes extends the absolute lifetime |
| PostgresStore.Store.Fetch | bff/postgres_store.go:234-261 | a fresh session object from a readable, unexpired row; an expired row is deleted |
| PostgresStore.Store.Save | bff/postgres_store.go:264-285 | inserts, or updates a row that is not a tombstone, keeping its creation column |
| PostgresStore.Store.Wipe | bff/postgres_store.go:289-305 | wipes the data and marks the row deleted |
| PostgresStore.Store.Prune | bff/postgres_store.go:309-326 | deletes by the columns, without opening the data |
| PostgresStore.ColumnsAgree | bff/postgres_store.go:264-285 | with one creation time per id, live rows' columns equal the sealed snapshot's after every run |
| PostgresStore.SweepRemovesWhatGetRefuses | bff/postgres_store.go:309-326 | the sweep deletes exactly the live rows a read would refuse, and tombstones older than an hour |
| PostgresStore.TwoCreationTimesDisagree | bff/postgres_store.go:264-285 | a run with two creation times for one id where sweep and read disagree |
| PostgresStore.AgreementNeedsOneCreation | bff/postgres_store.go:224-230 | column and snapshot agree on expiry at every moment exactly when there is no absolute bound, their creation times agree, or the idle bound comes first for both |
| PostgresStore.DeletedRowStaysUnreadable | bff/postgres_store.go:264-326 | a row deleted while present stays there wiped and unreadable, however old, until a sweep removes its tombstone |
| PostgresStore.DeletedRowIsAwayForAnHour | bff/postgres_store.go:309-326 | no sweep within the hour removes it |
| Gateway.Proxy.EnsureFresh | bff/gateway.go:155-178 | the held token without a call exactly while it lasts beyond the leeway at one of the two readings, otherwise the refresh token is presented and the new token stored with its expiry |
| Gateway.Proxy.Serve | bff/gateway.go:239-286 | reply, presented refresh token and rows of one whole request |
| MemoryGateway.Proxy.EnsureFresh | bff/gateway.go:155-178 | the same on the shared session of the in-memory store |
| Gateway.RunKeepsInv | bff/gateway.go:155-178 | over every run stored snapshots carry the last tokens the server issued |
| Gateway.NoSpentTokenIsPresented | bff/gateway.go:239-286 | over a rehydrating store, a rotating server that loses no answer never sees a spent refresh token |
| Gateway.TouchesAreSpaced | bff/gateway.go:273-277 | touch writes are at least the touch interval apart |
| Gateway.LastSeenLags | bff/gateway.go:273-277 | over every run on the row store the recorded last-seen lags the last forwarded request by less than the touch interval |
| Gateway.AttendedSessionNeverIdlesOut | bff/postgres_store.go:224-261 | over the row store, requests at gaps of at most idle minus the touch interval never find the session idle-expired |
| Gateway.UnattendedSessionIdlesOut | bff/postgres_store.go:224-261 | over the row store, the same |
| Gateway.LastSeenLagsFromLogin | bff/gateway.go:273-277 | over the row store the same lag bound counted from a login |
| Gateway.NeverIdlesOutFromLogin | bff/postgres_store.go:224-261 | over the row store every request of a session attended from its login on finds it |
| Gateway.AbsoluteLifetimeIsFinal | bff/postgres_store.go:224-261 | over the row store no run of touches or refreshes extends the absolute lifetime |
| Jwks.ReadKeys | jwtauth/middleware.go:763-796 | a document yields for each kid the last usable RSA signing key, and a document without any is a failed fetch |
| Jwks.UsableIsGiven | jwtauth/middleware.go:781-792 | every kid with an RSA signing key that parses has a key |
| Jwks.GivenIsUsable | jwtauth/middleware.go:781-792 | and only such a kid |
| Jwks.Middleware.RememberUnknownKid | jwtauth/middleware.go:748-761 | drops exactly the outdated negative entries and stamps this one |
| Jwks.Middleware.FetchJwks | jwtauth/middleware.go:763-807 | a usable answer replaces the keys, stamps the fetch and clears the negative cache; a failed one changes nothing |
| Jwks.Middleware.GetKey | jwtauth/middleware.go:687-743 | result, new state and whether the endpoint was asked, on the fields: a failed or unmade fetch serves the held key |
| Jwks.AnswersAreRecent | jwtauth/middleware.go:687-807 | every answer of every run is what the endpoint published at a moment within the stated age |
| Jwks.LastKeysAreServed | jwtauth/middleware.go:687-743 | for every sequential run with any answers: the held keys are those of the last fetch answered with keys, they are served when the own fetch fails or is not made, and a call is unavailable exactly when its own fetch failed without a held key; all read off the history |
| Jwks.PublishedKeyResolves | jwtauth/middleware.go:687-743 | a published key resolves from publication plus a grace on, exactly when the grace covers the refetch interval and the negative TTL plus the stamping delay |
| Jwks.WithdrawnKeyIsForgotten | jwtauth/middleware.go:687-743 | a withdrawn key never resolves after a grace, exactly when the grace covers the refetch interval and the cache TTL plus the stamping delay |
| Jwks.MissedInNegativeCache | jwtauth/middleware.go:701-705 | a run in which the negative cache hides a published key for longer |
| Jwks.MissedInCooldown | jwtauth/middleware.go:707-717 | a run in which the cooldown hides a published key for longer |
| Jwks.ServedInCooldown | jwtauth/middleware.go:707-717 | a run in which the cooldown serves a withdrawn key for longer |
| Jwks.ServedFromCache | jwtauth/middleware.go:696-699 | a run in which the fast path serves a withdrawn key for longer |
| Jwks.SequentialFetchesAreSpaced | jwtauth/middleware.go:707-726 | for calls one at a time, fetches start at least the refetch interval apart whatever kids and answers occur |
| JwksFlights.RunKeepsInv | jwtauth/middleware.go:687-743 | every interleaving keeps the fetch log ordered, disjoint and spaced against the decisions that led it |
| JwksFlights.FetchesNeverOverlap | jwtauth/middleware.go:719-726 | over every interleaving each fetch ends before the next is stamped |
| JwksFlights.CloseFetchWasDecidedEarlier | jwtauth/middleware.go:687-726 | a fetch stamped less than the refetch interval after another was led by a call that had read its cooldown state before that stamp |
| JwksFlights.LaterCallKeepsItsDistance | jwtauth/middleware.go:687-726 | so calls that begin after a fetch ended keep the interval |
| JwksAnswers.RunHasTrace | jwtauth/middleware.go:687-743 | every run is one of the traces these statements are about |
| JwksAnswers.HeldKeysAreLastInstalled | jwtauth/middleware.go:798-804 | over every interleaving the held keys are those of the last answer with keys |
| JwksAnswers.AnswersAreExplained | jwtauth/middleware.go:687-743 | over every interleaving a call returns what is held as it begins, if it needs no flight or its flight failed, and otherwise what is held when it looks again; unavailable only after a failed flight without a held key |
| JwksAnswers.FailedFlightFallsBack | jwtauth/middleware.go:727-733 | aboard a flight that fails, a call returns the key held as it began, and is unavailable if there was none |
| JwksAnswers.MissingWasNoted | jwtauth/middleware.go:748-761 | over every interleaving a kid is taken as missing only on a note made since keys were last installed |
| Lru.BoundedIsSuffix | socrate/service_token_scopes.go:114-141 | a bounded recency list is the tail of the unbounded one |
| Lru.CacheHoldsMostRecent | socrate/service_token_scopes.go:114-141 | a key is held exactly when it was used and fewer than the capacity of other keys were used since |
| Scopes.IsScopeToken | socrate/service_token_scopes.go:162-173 | accepts exactly the scope-tokens of section 3.3 of RFC 6749 |
| Scopes.SortScopes | socrate/service_token_scopes.go:156 | an ascending permutation |
| Scopes.Compact | socrate/service_token_scopes.go:157 | the same elements, each once, ascending |
| Scopes.NormaliseScopes | socrate/service_token_scopes.go:145-158 | the one canonical listing of the scope set; refused exactly when empty or when a scope is malformed |
| Scopes.FieldsOfJoin | socrate/service_token_scopes.go:70 | splitting a joined scope list gives the list back |
| Scopes.FieldsOfText | socrate/service_token_scopes.go:90-95 | any white space separates scopes |
| Scopes.SameKeyIffSameSet | socrate/service_token_scopes.go:145-158 | two scope lists share a cache key exactly when they denote the same set |
| Scopes.LookupKeepsCoherent | socrate/service_token_scopes.go:114-141 | a lookup keeps at most sixteen entries, each listed once, and the asked one among them |
| Scopes.HoldsSixteenMostRecent | socrate/service_token_scopes.go:114-141 | after any history the cache holds exactly the sixteen most recently asked sets since the last invalidation |
| Scopes.ScopedCache.Oldest | socrate/service_token_scopes.go:127-133 | the scan finds the least recently used key in whatever order the map is visited |
| Scopes.ScopedCache.ScopedEntry | socrate/service_token_scopes.go:114-141 | map, ticks and eviction refine the recency-list lookup |
| ScopedTokens.MissingScopes | socrate/service_token_scopes.go:95-101 | exactly the asked scopes that were not granted |
| ScopedTokens.Client.ServiceTokenWithScopes | socrate/service_token_scopes.go:62-109 | refusals without any change, reuse exactly until 30 s before expiry, and otherwise an exchange kept exactly when all scopes are covered |
| ScopedTokens.Client.ServiceToken | socrate/client.go:307-327 | the scope-less token is reused until 30 s before expiry, else exchanged and kept |
| ScopedTokens.Client.InvalidateServiceToken | socrate/client.go:397-406 | both the scope-less token and the scoped cache are emptied |
| ScopedTokens.RunKeepsInv | socrate/service_token_scopes.go:62-141 | every interleaving keeps cached entries born after the last invalidation and every token fitting its entry |
| ScopedTokens.ReturnedTokenIsFreshAndExact | socrate/service_token_scopes.go:62-141 | over every interleaving, a returned token's exchange began no earlier than the last invalidation before the lookup, asked for exactly the caller's set, and was granted all of it or named no scope (section 5.1 of RFC 6749) |
| ScopedTokens.RunHasTrace | socrate/service_token_scopes.go:62-109 | every run is one of the traces these statements are about |
| ScopedTokens.ReturnedTokenLasts | socrate/service_token_scopes.go:76-78 | over every interleaving a returned token had more than 30 seconds left when its caller found it, or came from its own exchange |
| ScopedTokens.ExchangedWithoutToken | socrate/service_token_scopes.go:76-86 | a caller exchanges only when it found no such token |
| ScopedTokens.OneExchangePerEntry | socrate/service_token_scopes.go:72-74 | two running exchanges are never for the same entry |
| Validator.Tokenize | ailang/validator.go:148-163 | the maximal runs of letters of the lower-cased text |
| Validator.TokensOfJoined | ailang/validator.go:148-163 | text joined by white space has the tokens of its parts |
| Validator.TrimKeepsTokens | ailang/validator.go:187-195 | trimming changes no token, and leaves nothing exactly of a blank text |
| Validator.CountStopwords | ailang/validator.go:166-177 | the hits in the French and the English table |
| Validator.IsCorrectLanguage | ailang/validator.go:80-108 | the verdict by counts of positions: too few tokens or no hits pass, otherwise a locale passes exactly when its own hits are three fifths of all |
| Validator.OneLanguageOnly | ailang/validator.go:80-108 | hits of one language only: that language passes and the other fails |
| Validator.MoreOfTheSamePasses | ailang/validator.go:80-108 | one more word that is only in the locale's table never turns a pass into a failure once there are five tokens |
| Validator.ArticleDecides | ailang/validator.go:16-62 | a text with the article of one language and no word of the other is of that language |
| Validator.GatherStrings | ailang/validator.go:198-213 | appends every string value of the document, as often as it occurs, in some order |
| Validator.PlacesAre | ailang/validator.go:198-213 | the places of a string are the positions of the document that hold it |
| Validator.LeavesArePlaces | ailang/validator.go:198-213 | a string counts as often as there are such positions |
| Validator.TokensOfSpell | ailang/validator.go:148-213 | tokenising the separator-joined values is joining their tokens |
| Validator.TokenBagIgnoresOrder | ailang/validator.go:148-213 | the bag of tokens is the same in every order of the values |
| Validator.HitsIgnoreOrder | ailang/validator.go:166-177 | token count and hits are the same in every order |
| Validator.VerdictIgnoresOrder | ailang/validator.go:114-129 | two visits of the same document give the same verdict |
| Validator.ValidateText | ailang/validator.go:114-129 | the result is the verdict of every visiting order of the document, by the counts over the bag of its strings; a blank text fails, unreadable numbers pass |
| Narration.NarrationCache.constructor | ainarration/cache.go:71-83 | an empty cache with the default size and TTL for non-positive settings |
| Narration.NarrationCache.RemoveAt | ainarration/cache.go:145-162 | shifting the tail down in place removes exactly one position |
| Narration.NarrationCache.Append | ainarration/cache.go:126-127 | appends in place or, when the backing array is full, in a copy |
| Narration.NarrationCache.MoveToEnd | ainarration/cache.go:145-153 | the key becomes the most recent one |
| Narration.NarrationCache.RemoveFromOrder | ainarration/cache.go:155-162 | the key leaves the slice |
| Narration.NarrationCache.MakeRoom | ainarration/cache.go:120-124 | the eviction loop drops the oldest entry of a full cache and nothing else |
| Narration.NarrationCache.Add | ainarration/cache.go:120-127 | a new key is stored as the most recent one, after room was made |
| Narration.NarrationCache.Get | ainarration/cache.go:86-107 | a hit no older than the TTL, promoted; an expired entry is removed |
| Narration.NarrationCache.Put | ainarration/cache.go:110-128 | stores, promotes, and evicts as the recency list does |
| NarrationRuns.RunIsOneRecencyList | ainarration/cache.go:86-162 | after every sequential run the slice lists the map's keys once each by last use, each with its last stored value |
| NarrationRuns.HitReturnsLastPut | ainarration/cache.go:86-107 | a hit is the value last stored under the key, aged at most the TTL |
| NarrationRuns.EvictsLeastRecentlyUsed | ainarration/cache.go:120-124 | an evicted key was the least recently used one of a full cache, and nothing else left |
| NarrationRuns.CachedIffSurvives | ainarration/cache.go:86-128 | after every sequential run a key is cached exactly when, since its last use, it was neither flushed nor looked up too late and never had the maximum of other used and unexpired keys behind it, all read off the history of puts, gets and flushes |
| NarrationRuns.InterleavingKeepsOneList | ainarration/cache.go:86-162 | after every locked step of any interleaving the slice holds exactly the map's keys once each, at most the maximum |
| NarrationRuns.InterleavedHitWasPut | ainarration/cache.go:86-107 | an interleaved hit was stored under its key and was within the TTL when judged |
| PendingLogins.MemoryPendingLoginStore.constructor | bff/pending_login.go:68-76 | defaults for a non-positive TTL or maximum |
| PendingLogins.MemoryPendingLoginStore.Put | bff/pending_login.go:79-96 | result and map of a put, including the sweep a full store makes first |
| PendingLogins.MemoryPendingLoginStore.Take | bff/pending_login.go:99-111 | returns an unexpired login and removes it in any case |
| PendingLogins.MemoryPendingLoginStore.Sweep | bff/pending_login.go:114-118 | keeps exactly the unexpired logins |
| PendingLogins.MemoryPendingLoginStore.SweepLocked | bff/pending_login.go:120-127 | the sweep loop, in whatever order the map is visited |
| PendingLogins.PostgresPendingLoginStore.Put | bff/pending_login.go:247-273 | inserts or replaces the row |
| PendingLogins.PostgresPendingLoginStore.Take | bff/pending_login.go:276-306 | deletes the row and returns its login unless expired |
| PendingLogins.PostgresPendingLoginStore.Sweep | bff/pending_login.go:309-315 | comparing the creation column removes exactly the expired logins |
| PendingLogins.RefusedIffFull | bff/pending_login.go:79-96 | a put of a non-empty state is refused exactly when the maximum of unexpired logins stands under other states |
| PendingLogins.AnswersAsIdeal | bff/pending_login.go:79-127 | over every run, every answer is that of an ideal store of unexpired logins, and the size never exceeds the maximum |
| PendingLogins.TakeReturnsLatestPut | bff/pending_login.go:99-111 | a take answers with the latest login put and not yet taken, unless expired |
| PendingLogins.TakenAtMostOnce | bff/pending_login.go:99-111 | between two successful takes of a state a login was put there, and the second take returns it |
| PendingLogins.RowsTakeTheSame | bff/pending_login.go:247-315 | the row store answers every take alike whenever no put was refused |
| Pep.New | pep/pep.go:114-134 | unknown floors and an enforce floor that fails open are refused, an empty floor means off |
| Pep.UnmetObligation | pep/pep.go:292-311 | the first obligation the token does not satisfy |
| Pep.NothingUnmetIff | pep/pep.go:292-311 | nothing is reported unmet exactly when all obligations before the first empty name are met |
| Pep.MissesNothingIff | pep/pep.go:292-311 | the obligation check misses nothing, for every token, exactly when no name is empty or an unknown one stands before the empty one |
| Pep.Enforcer.Check | pep/pep.go:147-213 | outcome and remembered state of one check |
| Pep.Enforcer.Decide | pep/pep.go:221-236 | the floor is sent only when accepted before, and a rejected request is asked once more without it |
| Pep.Enforcer.Unavailable | pep/pep.go:240-267 | what an error means, from the mode it carries or the last one seen |
| Pep.EnforceFloorPassesIff | pep/pep.go:169-267 | over every history, under floor enforce a check passes exactly on a token and an error-free allow with nothing unmet before an empty name |
| Pep.EnforceFloorIsStrict | pep/pep.go:169-267 | so it passes only on an error-free allow, with every obligation met when no name is empty |
| Pep.DecisionPassesIff | pep/pep.go:169-213 | any floor, any history: an answered check passes exactly when allowed with every obligation up to an empty name honoured, or when floor and server are both lenient |
| Pep.ErrorPassesIff | pep/pep.go:240-267 | any floor, any history: a failed check passes exactly when the floor is not enforce and the mode reported last is lenient, or none was and the point fails open |
| Pep.RefusalSays | pep/pep.go:147-213 | a refusal says no token, no decision point, the first obligation missed, or a plain no |
| Pep.FloorIsSentIffAdvertised | pep/pep.go:221-236 | over every history the floor goes along exactly when there is one and the server last said it takes it |
| Pep.PassesUnmetIff | pep/pep.go:169-213 | under floor enforce a check passes with an obligation unmet exactly on a token and an allow with an empty name after only met ones |
| Pep.EmptyObligationPasses | pep/pep.go:292-311 | such an input: the one obligation "" |
| Pep.NeverRefusedWhileLenient | pep/pep.go:169-267 | below enforce, once a mode was reported and only off and shadow ever are, no check carrying a token is refused |
| Pep.StricterPassesMoreIff | pep/pep.go:169-288 | on one answer a stricter floor passes what a weaker refuses in exactly one case |
| Pep.ShadowPassesWhatOffDenies | pep/pep.go:279-288 | such an input: a refusal without a mode |
| Pep.StricterNeverPassesMore | pep/pep.go:169-288 | over every history, when answers ignore pep_mode and the last success carries a mode, a stricter floor never passes what a weaker refuses |
| PolicyCache.ValidateTierRules | tiering/policy_service.go:187-205 | accepts exactly when every tier decodes and has the field its feature type needs |
| PolicyCache.RuleFor | tiering/policy_service.go:126-146 | the first policy of that name decides, through the plan's column; no policy or an undecodable rule is an error |
| PolicyCache.PolicyService.All | tiering/policy_service.go:149-177 | a fresh cache is served, a refresh replaces it, a failed refresh serves what was cached |
| PolicyCache.PolicyService.UpdatePolicy | tiering/policy_service.go:79-100 | succeeds exactly on an existing feature with suitable rules that could be saved, and then empties the cache |
| PolicyCache.RunKeepsInv | tiering/policy_service.go:149-184 | every interleaving keeps the cached list at least as new as every update that has returned |
| PolicyCache.ReadsSeeReturnedUpdates | tiering/policy_service.go:79-184 | over every interleaving, a read called after an update returned uses a list read after that update's save, even with an overlapping refresh or a stale list served on error |
| PolicyCache.LaterListHasTheRow | tiering/policy_service.go:79-100 | such a list holds for the feature the row of that update or of a later one |
| PolicyCache.ReadersListHasTheRow | tiering/policy_service.go:79-184 | over every interleaving, the list a later reader uses holds the updated feature's row of that update or of a later one |
| PolicyCache.RunHasTrace | tiering/policy_service.go:149-184 | every run is one of the traces this statement is about |
| PolicyCache.AnswersAreYoung | tiering/policy_service.go:149-177 | over every interleaving a read answers from a list cached less than the TTL before, from its own read, or, when that failed, from what was there |

## Left out

- Error texts, logging, metrics, HTTP plumbing, headers and cookies, the CSRF check and the pass-through settings of the proxy.
- Cryptography: signatures, digests, sealing and random generators appear as shapes; opening a sealed value under its own id gives it back.
- Floating point: JSON numbers are real numbers, and the 0.60 dominance threshold is five times the hits against three times the total.
- Integer widths: ticks, entry numbers and times do not wrap around.
- `tokenExpiry`: the expiry of a token arrives with the answer.
- Jwks: parsing an RSA key is a function parameter; a stamp never set counts as infinitely long ago.
- Concurrent requests over row-backed session stores, several gateways on one store, and server answers lost on the way.
- Statement-level interleaving inside one database operation, storage errors, and the database's microsecond rounding of time columns.
- The Unicode tables and JSON decoder of the language validator are parameters; invalid UTF-8 does not occur.
- PolicyCache: the repository never answers with a nil list and no error; plan normalisation and rule decoding are parameters.
- Pep: a check made for the application itself is the same check without the test for a token.
- Narration cache keys and the content hash behind them.
- Rate limiters, the provider clients of the AI gateway, the translator, pagination, RBAC, plan registry and the administrative parts of `socrate`: thin wrappers or single-branch code that would only add easy members.
