# KDC protocol verification

A Dafny model of the parts of the MIT krb5 KDC in which most state is carried from one step to the next, with proofs
of what that state is for:

* **Authorization data of issued tickets.** Every stage of `handle_authdata`, in place on the reply; CAMMAC containers
  and the authentication indicators in them (section 4 of RFC 7751); signed delegation paths; and what survives along
  every chain of one AS exchange and any number of TGS exchanges: plain ones, constrained delegation (S4U2Proxy) and
  protocol transition (S4U2Self). The chain theorems say exactly when: every ticket of a chain gives the right
  indicators, or the right path, if and only if a condition on the inputs of each exchange holds. Chains of ordinary
  exchanges of any length pass the KDC's own checks and meet those conditions. And whatever is done to tickets between
  exchanges, the indicators and paths that the KDC reads from them go back to what it signed itself.
* **Pre-authentication and the AS exchange.** The continuation-passing checks, the hint list, the order of reply
  pa-data and the replacement of the reply key, as objects whose methods are the continuations.
* **The FAST cookie** (section 5.2 of RFC 6113) and its round trip through the client.
* **Dispatching around the lookaside cache**, over every interleaving of arrivals and completions.
* **The data structures under these**: the queue macros of `k5-queue.h` on the heap, byte-order conversion, and the
  input cursor.

Code that updates records is modelled by classes and loops, proved against functions on values; the theorems are
about those functions.

| files | what they model |
|---|---|
| `QueueLinks`, `TailQueues`, `LinkedLists`, `SimpleQueues`, `CircleQueues` | `src/include/k5-queue.h` |
| `KdcTypes`, `KeySearch` | shared records; the key search of `src/lib/kdb/kdb_default.c` |
| `AuthdataLists`, `Cammacs`, `SignedPaths`, `TicketAuthdata`, `TicketContents` | `src/kdc/kdc_authdata.c`, `cammac.c`, `authind.c` |
| `TgsPolicy`, `TgsIssue`, `TgsReplies` | `src/kdc/tgs_policy.c`, the S4U checks of `kdc_util.c`, and the issuing part of `do_tgs_req.c` |
| `TicketChains`, `IndicatorChains`, `PathChains`, `AnonymousTickets`, `OrdinaryChains`, `RenewalChains`, `PreauthChains`, `TicketProvenance` | chains and logs of exchanges |
| `PreauthTypes`, `PadataCheck`, `PaOrder`, `ReturnPadata`, `HintList`, `EncryptedChallenge`, `AsExchange` | `src/kdc/kdc_preauth.c`, `kdc_preauth_ec.c`, `do_as_req.c` |
| `Cookies` | the cookie functions of `src/kdc/fast_util.c` |
| `Lookasides`, `Dispatch`, `DispatchRuns` | `src/kdc/replay.c`, `dispatch.c` |
| `ByteOrder`, `InputCursor` | `src/include/k5-platform.h`, `k5-input.h` |
| `ServiceLists` | `in_list` of `src/kdc/do_tgs_req.c` |

## Where the code does not do what it says

The model follows the code. In these places a promise of its comments or documentation is not kept; each is stated as
a lemma, with the condition under which the promise does hold.

* A duplicate of a request still being processed is meant to be discarded (`src/kdc/dispatch.c:161-167`). The lookup
  hands out a copy of the empty reply (`src/kdc/replay.c:180`), so the duplicate is answered with code 0 and an empty
  reply, and the discard code is never used on a hit (`DuplicateInFlight`, `HitIsAnswered`): the promise is kept for no
  duplicate. It is not processed again.
* No packet is processed twice at a time exactly as long as no entry of a request in flight is dropped
  (`OneEachAlongRun`); none is while there is room and every request in flight is less than two minutes old
  (`RoomyRunsAreSafe`), and a request that takes two minutes is the counterexample (`SlowRequestTwiceInFlight`).
* The filter of KDC-issued authorization data looks one IF-RELEVANT container deep; the search for CAMMACs looks at
  any depth. What is hidden deeper survives the filter (`KeptReservedIsNested`). The tickets of a chain give the
  intended indicators if and only if what surrounds their own CAMMACs contributes nothing (`IndicatorsSurviveChain`);
  one malformed element two containers deep makes them unreadable (`HiddenCammacLosesIndicators`). Nothing hidden can
  add an indicator (`NoIndicatorGainedSinceAs`).
* A proxy request on an evidence ticket without a path that verifies is refused, unless the reply is anonymous
  (`UnprovenExactly`). An anonymous ticket is in the anonymous principal's name, so no proxy reply is anonymous in any
  realm but WELLKNOWN:ANONYMOUS, and in every other realm the request is refused (`ProxyNeedsPath`); in that one there
  is a request that is not (`GrantedInAnonymousRealm`).
* Extracting indicators passes over malformed elements, but fails if the last one is malformed (`ExtractedExactly`), so
  the order of a good and a malformed element decides (`OrderDecides`, `src/kdc/authind.c:93-117`).
* A cookie is meant to be readable after newer keys are added. It is if and only if its version is at least 1 or the
  newest key happens to decrypt it to what it was made of (`MadeCookieOpens`); one made under key
  version 0 is lost when a newer key does not (`LostAtVersionZero`).
* A delegation path is signed for the user of a protocol transition and checked for the client that the ticket names
  (`src/kdc/kdc_authdata.c:568`). A transition asked for by a client of another realm names that client, and its ticket
  does not give the path on (`ForeignTransitionLosesPath`, `TransitionOfHostLosesPath`); the path theorem has the exact
  condition (`PathIsDelegators`).
* Reading an expired but relevant cookie is documented to fail (`src/kdc/fast_util.c:557-562`); the function always
  returns 0 (line 626). The code returned is the documented one if and only if the cookie does not open, has not expired
  or is not relevant (`RequestState.ReadCookie`); a cookie that comes back late beside an element of a type it was set
  for is one where it is not (`LateCookieIsNotReported`).
* `in_list` means membership in the list for names without separators only (`ListedIsToken`, `OtherNamesDiffer`).

## Assumptions

* A DER encoding is the value it encodes, and a checksum is the term of its key, usage and data. In `Cookies` the
  cipher is a parameter of which one thing is assumed: it decrypts what it encrypted.
* A pre-authentication module is a function that says what it responds; it responds exactly once. An authorization
  data module, and the KDB, only append.
* Time, random confounders and session keys are parameters.

## Model

| member | source | states |
|---|---|---|
| `IndicatorChains.IndicatorsSurviveChain` | src/kdc/kdc_authdata.c:743-896 | for every chain of one AS exchange and any number of TGS exchanges of any kind, whatever requests hide, every ticket gives its reader exactly the indicators of the AS exchange, in order, and none from a protocol transition on, if and only if the inputs of every exchange are quiet (searchable, at most 256 CAMMACs, none contributing but its own); the last ticket then does, it names the client or the last transition's user, and every service that requires an indicator got one that the AS exchange established |
| `IndicatorChains.IndicatorsAlongChain` | src/kdc/kdc_authdata.c:783-821 | the same if-and-only-if from any ticket that gives the indicators |
| `IndicatorChains.HopExactly` | src/kdc/do_tgs_req.c:384-400 | one TGS exchange of any kind, about a ticket that gives the indicators, issues one that gives the same (none after a protocol transition) exactly if its inputs are quiet, with the same authtime, and only if the service's requirement is met |
| `IndicatorChains.IndicatorsExactly` | src/kdc/kdc_authdata.c:743-821 | one exchange: the ticket gives exactly the indicators it was issued with if and only if its inputs are quiet, a condition on the inputs and the reader |
| `IndicatorChains.IssuedGathers` | src/kdc/kdc_authdata.c:783-821 | what any entry reads from an issued ticket: an error, or what the data ahead of its CAMMAC, its CAMMAC and the KDB's data contribute, in that order |
| `IndicatorChains.GatheredSame` | src/kdc/cammac.c:38-52 | what CAMMACs contribute does not depend on the ticket's own authorization data, since the verifier does not cover it |
| `IndicatorChains.NoIndicatorGainedSinceAs` | src/kdc/kdc_authdata.c:743-896 | along every chain, of hops of any kind and with any keys, no ticket gives any entry an indicator the AS exchange did not establish, as long as no verifier for a new session key is hidden in what goes into its ticket; and no service that requires one is satisfied by another |
| `IndicatorChains.NoIndicatorGained` | src/kdc/kdc_authdata.c:743-896 | the same from any ticket |
| `IndicatorChains.IssuedGivesNoMore` | src/kdc/kdc_authdata.c:743-821 | one exchange: the ticket gives an error, nothing, or exactly the indicators it was issued with |
| `IndicatorChains.IndicatorsOfIssued` | src/kdc/kdc_authdata.c:743-896 | with inputs that hide no CAMMAC, an issued ticket reads back its indicators, holds one CAMMAC, and passes none on |
| `IndicatorChains.OneCammacSinceAs` | src/kdc/kdc_authdata.c:743-896 | after an AS exchange and any number of TGS exchanges of any kind, none of whose inputs hides a CAMMAC, the ticket holds exactly one CAMMAC (none if it has no indicators), reads back the indicators, and passes no CAMMAC on |
| `IndicatorChains.OneCammacAlongChain` | src/kdc/kdc_authdata.c:743-896 | the same from any ticket with one CAMMAC |
| `IndicatorChains.HopReplacesCammac` | src/kdc/kdc_authdata.c:743-781 | one exchange strips the old CAMMAC and adds one fresh one |
| `IndicatorChains.OwnCammacContributes` | src/kdc/cammac.c:54-173 | the CAMMAC an exchange adds contributes its indicators on the finished ticket, though later stages extend that ticket |
| `PathChains.PathIsDelegators` | src/kdc/kdc_authdata.c:499-739 | for every chain of one AS exchange and any number of TGS exchanges of any kind that sign paths, every ticket gives its reader exactly the services that delegated so far, in order, if and only if every exchange has clean inputs, names the client it signs for (each protocol transition is asked for by a client of this realm or on its own behalf), and has a signing key its reader has among its last three versions; these are the services the evidence tickets were for, and the last ticket holds exactly one AD-SIGNTICKET |
| `PathChains.PathAlongChain` | src/kdc/kdc_authdata.c:692-739 | the same if-and-only-if from any ticket that gives a path |
| `PathChains.HopTraces` | src/kdc/kdc_authdata.c:692-739 | one hop: a plain one or a protocol transition keeps the path, a proxy one appends the service the evidence was for, which is the client of the header ticket, exactly if its inputs are clean, it names the client it signs for, and the reader has the key |
| `PathChains.PathExactly` | src/kdc/kdc_authdata.c:550-668 | one exchange, on behalf of a user or not: the ticket gives the path it was issued with, extended by the intermediary if any, exactly under that condition |
| `PathChains.VerifiedHasOne` | src/kdc/kdc_authdata.c:499-548 | a ticket whose path verifies holds exactly one AD-SIGNTICKET at any depth |
| `PathChains.NeverBackToTgt` | src/kdc/tgs_policy.c:282-318 | once a chain has come to a service ticket, as every proxy request does, no number of further exchanges without a referral leads to a ticket for a TGS, and none of them is a protocol transition |
| `PathChains.FromServiceTicket` | src/kdc/tgs_policy.c:282-318 | one exchange: a service ticket serves for proxy requests, and for requests with an option about that ticket itself, for the same service; what is issued is for a TGS only by way of a referral |
| `TicketProvenance.IndicatorsGoBackToAs` | src/kdc/kdc_authdata.c:743-896 | over every log of exchanges, however the tickets in between were changed by whoever held them, an indicator that a ticket is issued with was established by an AS exchange for the same client and authtime, as long as nobody else makes checksums under the TGT keys |
| `TicketProvenance.ReadWasSigned` | src/kdc/kdc_authdata.c:783-821 | an indicator that any ticket gives was signed by an earlier exchange for a ticket that is the same but for its authorization data |
| `TicketProvenance.OwnCammacSignature` | src/kdc/cammac.c:38-136 | the KDC verifier of an issued CAMMAC covers the ticket with the indicators in it |
| `TicketProvenance.PathsGoBackToProxies` | src/kdc/kdc_authdata.c:499-739 | over every such log, the path of a ticket names, in order, services that each asked to act as a proxy, in exchanges that came one after the other |
| `TicketProvenance.VerifiedPathIsOurs` | src/kdc/kdc_authdata.c:499-548 | a path that any ticket gives was signed by an earlier exchange, as it is, for the ticket's client and authtime and with its other authorization data |
| `TicketProvenance.OwnPathSignature` | src/kdc/kdc_authdata.c:550-668 | the checksum of an issued path covers the client, the authtime, the whole path and the rest of the ticket's authorization data |
| `AnonymousTickets.ProxyNeedsPath` | src/kdc/kdc_authdata.c:692-720 | in every realm but the anonymous one, no proxy request is granted on an evidence ticket that holds more than a PAC and no path that verifies |
| `AnonymousTickets.UnprovenExactly` | src/kdc/kdc_authdata.c:692-896 | such a request that gets as far as its path is granted exactly if the reply is anonymous |
| `AnonymousTickets.GrantedInAnonymousRealm` | src/kdc/kdc_authdata.c:866-896 | in the anonymous realm there is such a request that is granted |
| `AnonymousTickets.ProxyHeaderIsNotAnonymous` | src/kdc/kdc_util.c:1610-1653 | a proxy request that is not refused has no anonymous header ticket |
| `AnonymousTickets.NamedAlongChain` | src/kdc/do_as_req.c:775-793 | along every chain, of hops of any kind, anonymous tickets stay in the anonymous principal's name |
| `AnonymousTickets.ReplyAnonymous` | src/kdc/do_tgs_req.c:406-472 | a TGS reply is anonymous exactly when the header ticket is |
| `OrdinaryChains.OrdinaryChainsDeliver` | src/kdc/kdc_authdata.c:823-896 | every chain of ordinary exchanges of the three kinds, of any length, issues a ticket, with the indicators of the AS exchange (none after a protocol transition), the path of the services that delegated, and the client or the last transition's user |
| `OrdinaryChains.OrdinaryChainsQualify` | src/kdc/kdc_authdata.c:823-896 | every chain of ordinary exchanges meets the conditions of the indicator theorem and of the path theorem |
| `OrdinaryChains.OrdinaryHopStaysTypical` | src/kdc/do_tgs_req.c:371-688 | an ordinary exchange about a usable ticket that holds only its own CAMMAC and path issues another such ticket, not marked INVALID, with the path extended |
| `OrdinaryChains.OrdinaryHopQualifies` | src/kdc/kdc_authdata.c:823-896 | an ordinary exchange meets the conditions of both chain theorems, that of the path exactly if it names the client it signs for |
| `OrdinaryChains.ForeignTransitionLosesPath` | src/kdc/kdc_authdata.c:560-600 | an otherwise ordinary protocol transition asked for by a client of another realm, for someone else, is granted and does not give the path on |
| `OrdinaryChains.TransitionOfHostLosesPath` | src/kdc/kdc_authdata.c:560-600 | one such request: the first ticket of a host gives the empty path, and the ticket of its protocol transition does not |
| `OrdinaryChains.OrdinaryIssue` | src/kdc/kdc_authdata.c:823-896 | no stage of an ordinary exchange fails |
| `OrdinaryChains.OrdinaryAdmitted` | src/kdc/tgs_policy.c:320-385 | an ordinary request is refused by none of the checks on the header ticket, on policy and on delegation |
| `OrdinaryChains.HiddenCammacLosesIndicators` | src/kdc/kdc_authdata.c:110-150 | a request with a malformed CAMMAC two containers deep is granted, and the ticket then gives indicators to no entry |
| `RenewalChains.RenewalsNeverGain` | src/kdc/do_tgs_req.c:490-529 | over any chain of renewals the authtime is constant, the effective life never grows, and neither endtime nor renew-till passes the first renew-till |
| `RenewalChains.ChainWithinHorizon` | src/kdc/do_tgs_req.c:490-529 | no chain of exchanges of any kind ends later than allowed by the ticket it comes from (the first one, or the header ticket of the last proxy request), and the authtime is the first ticket's throughout |
| `RenewalChains.HopTimes` | src/kdc/do_tgs_req.c:382-529 | the same for one exchange; its effective start is the current time |
| `RenewalChains.AuthFlagsAlongChain` | src/kdc/kdc_util.h:510-537 | along any chain of exchanges of any kind PRE_AUTH, HW_AUTH and ANONYMOUS stay those of the ticket it comes from, and a ticket becomes neither initial nor renewable if that one was not |
| `RenewalChains.ReplyAuthFlags` | src/kdc/do_tgs_req.c:406-529 | the same for the flags of one reply |
| `RenewalChains.InvalidOnlyValidates` | src/kdc/kdc_util.c:270-275 | an exchange with a header ticket marked INVALID is granted only to validate it, after its start time; the issued ticket is marked INVALID exactly if it is postdated, or a renewal asked for with the validation brings the old flags back |
| `PreauthChains.DemandedWasVerified` | src/kdc/tgs_policy.c:165-183 | if the ticket a chain comes from is the reply of an AS exchange with honest modules, every flag (PRE_AUTH, HW_AUTH) that a service on the chain demands was set by a verification of that exchange that succeeded |
| `PreauthChains.DemandsAlongChain` | src/kdc/tgs_policy.c:165-183 | every service on a chain is asked for with a ticket that comes from one with all the flags the service demands |
| `PreauthChains.HopDemands` | src/kdc/tgs_policy.c:165-183 | one granted exchange: the header ticket has the flags the service demands |
| `TicketChains.IssuedComposition` | src/kdc/kdc_authdata.c:189-313 | an issued ticket's authorization data is the filtered request, the modules, the filtered subject ticket, at most one CAMMAC, the KDB's data and at most one signed path, in that order; nothing KDC-issued at the top or one container deep comes from request or subject; MANDATORY-FOR-KDC input yields no ticket |
| `TicketChains.IssuedLeaves` | src/kdc/kdc_authdata.c:823-896 | with clean inputs, the reserved elements of an issued ticket are those this exchange made, and none is passed on |
| `TicketChains.IssueShape` | src/kdc/kdc_authdata.c:823-896 | the stages compose to that list before the path is signed |
| `TicketChains.IssueKeeps` | src/kdc/kdc_authdata.c:823-896 | nothing but the authorization data of the ticket changes |
| `TicketContents.IssuedExactly` | src/kdc/kdc_authdata.c:823-896 | a ticket is issued exactly if the request's data can be read, nothing in it or in the subject ticket is mandatory for the KDC, the keys make the checksums called for, the KDB does not fail when asked, and the subject ticket's path is in order |
| `TicketContents.RefusalCodes` | src/kdc/kdc_authdata.c:247-313 | mandatory data gives a policy error, and a proxy request on a ticket whose path does not verify a bad-option error |
| `TicketContents.IssuedTakesOver` | src/kdc/kdc_authdata.c:110-313 | from the request and the subject ticket an issued ticket takes no KDC-ISSUED, CAMMAC, indicator, PAC or signed path, at the top or one container deep, and everything else in order; the request is read with the session key or the client's key, each for its usage |
| `TicketContents.KdbPartIs` | src/kdc/kdc_authdata.c:316-392 | what the KDB adds is what it gives when asked: for TGS exchanges if the service takes authorization data and the ticket has some, is cross-realm or is delegated; for AS exchanges if a PAC is wanted |
| `TicketContents.ServiceReadsCammac` | src/kdc/cammac.c:54-136 | the CAMMAC of an issued ticket holds its indicators and verifies for the service's own key alone |
| `TicketContents.WantsMean` | src/kdc/kdc_authdata.c:692-739 | a path is signed exactly for a service that takes authorization data, is not another realm's TGS and whose ticket holds more than a PAC |
| `TicketContents.SubjectPathIs` | src/kdc/kdc_authdata.c:692-720 | the path an exchange starts from, in each case |
| `TicketContents.FlattenIs` | src/kdc/kdc_authdata.c:840-870 | the modules' data follows in the order of the modules |
| `AuthdataLists.IsKdcIssuedAuthdatum` | src/kdc/kdc_authdata.c:110-150 | true exactly for a reserved type at the top level or inside one decodable IF-RELEVANT container |
| `AuthdataLists.HasMandatoryForKdcAuthdata` | src/kdc/kdc_authdata.c:170-182 | true exactly if some element is MANDATORY-FOR-KDC |
| `AuthdataLists.CopyWithout` | src/kdc/kdc_authdata.c:222-230 | the copy loop yields the elements that are not KDC-issued |
| `AuthdataLists.WithoutKeeps` | src/kdc/kdc_authdata.c:222-230 | the filtered list has no KDC-issued element, and every other element of the input and no more |
| `AuthdataLists.FindAuthdataIs` | src/lib/krb5/krb/authdata_dec.c:87-181 | the search returns the elements of a type through containers of any depth, in order, and succeeds exactly when every container decodes and at most 256 match |
| `AuthdataLists.FindFromIs` | src/lib/krb5/krb/authdata_dec.c:114-156 | the same for the recursive part, from a partial result |
| `AuthdataLists.KeptReservedIsNested` | src/kdc/kdc_authdata.c:110-150 | whatever reserved element survives the filter sits at least two containers deep |
| `Cammacs.CammacVerifies` | src/kdc/cammac.c:54-194 | a CAMMAC made for one ticket verifies for another exactly when the two agree on everything but authorization data, while the key is retained; its service verifier verifies for its own key alone |
| `Cammacs.VerifierCovers` | src/kdc/cammac.c:138-173 | a KDC verifier that is accepted was made under a key of the TGT entry, over this ticket with the CAMMAC's own elements in it |
| `Cammacs.AcceptedExactly` | src/kdc/cammac.c:138-194 | a verifier is accepted exactly if it is the checksum, under the key of the version and enctype it names, of the ticket with the elements in it; the service's, of the elements under its key |
| `Cammacs.RewrittenElementsFail` | src/kdc/cammac.c:38-136 | once its elements are changed, a CAMMAC verifies on no ticket and for no entry or service key |
| `Cammacs.AuthindContains` | src/kdc/authind.c:36-46 | true exactly if the indicator is in the list |
| `Cammacs.IndicatorList.Add` | src/kdc/authind.c:48-75 | appends an indicator unless it is there; a list without duplicates stays so |
| `Cammacs.IndicatorList.Extract` | src/kdc/authind.c:77-123 | appends the strings of all indicator elements that decode, on failure too if the search succeeded; the code is 0 exactly if extraction succeeds |
| `Cammacs.ExtractedExactly` | src/kdc/authind.c:77-123 | extraction succeeds exactly if every container decodes, at most 256 elements are found, and the last of them decodes |
| `Cammacs.OrderDecides` | src/kdc/authind.c:93-117 | a malformed element after a good one makes extraction fail, and before it does not |
| `Cammacs.IndicatorList.GetAuthIndicators` | src/kdc/kdc_authdata.c:783-821 | gathers, in order, the strings of the CAMMACs whose KDC verifier is valid for the ticket |
| `Cammacs.GatheredConcat` | src/kdc/kdc_authdata.c:783-821 | indicators of concatenated lists are gathered list by list, the first failure winning |
| `SignedPaths.TrialsAcceptExactly` | src/kdc/kdc_authdata.c:439-496 | the trials accept exactly when the checksum verifies under the first key of one of at most three consecutive versions, counted down from the highest and stopping at the first missing one |
| `SignedPaths.SurvivesTwoRollovers` | src/kdc/kdc_authdata.c:439-496 | a path signed at version k is accepted exactly when at most two newer versions were added, without a gap |
| `SignedPaths.SignedPathVerifies` | src/kdc/kdc_authdata.c:499-668 | a made path verifies on the finished ticket, and reads back as made, exactly when the other data is searchable and holds no AD-SIGNTICKET, the client is the ticket's, and the key is among the last three versions |
| `SignedPaths.VerifiedWasSigned` | src/kdc/kdc_authdata.c:439-548 | a path that verifies is exactly what a key of the TGT entry signed, for this client, authtime and other authorization data, and is the ticket's only AD-SIGNTICKET |
| `SignedPaths.WithoutOnePath` | src/kdc/kdc_authdata.c:499-548 | a ticket with any other number of signed paths than one gives none; containers that do not decode and checksums without a key are errors |
| `SignedPaths.AlteredPathFails` | src/kdc/kdc_authdata.c:394-496 | a signed path verifies on no ticket with its delegators changed, nor on one with another client, authtime or other authorization data |
| `SignedPaths.AcceptedWasMade` | src/kdc/kdc_authdata.c:439-496 | a checksum the trials accept was made under a key of the entry, over exactly that data |
| `SignedPaths.VerifySignedpathChecksum` | src/kdc/kdc_authdata.c:439-496 | the loop ends and computes the trials |
| `SignedPaths.MakeSignedpathData` | src/kdc/kdc_authdata.c:394-437 | the signed data leaves out every AD-SIGNTICKET |
| `TicketAuthdata.EncTktReply.MergeAuthdata` | src/kdc/kdc_authdata.c:189-244 | appends the given elements, without the KDC-issued ones where asked |
| `TicketAuthdata.EncTktReply.CopyRequestAuthdata` | src/kdc/kdc_authdata.c:247-300 | decrypts under the session key, else the subkey; refuses MANDATORY-FOR-KDC; appends the filtered request |
| `TicketAuthdata.EncTktReply.CopyTgtAuthdata` | src/kdc/kdc_authdata.c:303-313 | refuses MANDATORY-FOR-KDC; appends the filtered subject ticket |
| `TicketAuthdata.EncTktReply.AddAuthIndicators` | src/kdc/kdc_authdata.c:743-779 | adds one CAMMAC exactly when there are indicators and the service takes authorization data |
| `TicketAuthdata.EncTktReply.FetchKdbAuthdata` | src/kdc/kdc_authdata.c:316-392 | appends what the KDB signs, when the KDB is consulted; a missing KDB method is no error |
| `TicketAuthdata.EncTktReply.MakeSignedpath` | src/kdc/kdc_authdata.c:595-668 | appends the signed path, or nothing if the key type cannot checksum |
| `TicketAuthdata.EncTktReply.HandleSignticket` | src/kdc/kdc_authdata.c:692-739 | verifies the subject's path, refuses an unverified proxy request, and signs the extended path |
| `TicketAuthdata.EncTktReply.HandleAuthdata` | src/kdc/kdc_authdata.c:823-896 | runs the stages in order; the reply is what their composition gives, or the first error |
| `KeySearch.FindKeyIs` | src/lib/kdb/kdb_default.c:47-127 | the lookup returns the first permitted key of the version asked for, 0 or -1 meaning the highest, and fails exactly if there is none |
| `KeySearch.FindKeyMeans` | src/lib/kdb/kdb_default.c:47-127 | version 0 or -1 means the highest; the first permitted key of the version, or whether there is one at all |
| `KeySearch.SearchEnctype` | src/lib/kdb/kdb_default.c:47-127 | the loops compute that lookup |
| `KeySearch.HighestKvno` | src/lib/kdb/kdb_default.c:70-77 | the highest version |
| `KeySearch.FindKeyAfterRollover` | src/include/kdb.h:1127-1135 | adding keys of other versions leaves a lookup by version unchanged |
| `TgsIssue.EndTimeIsLatest` | src/kdc/kdc_util.c:1754-1780 | the end time respects the header ticket, the request and every limit on life that is set, and reaches one of them |
| `TgsIssue.RenewTimeIsLatest` | src/kdc/kdc_util.c:1787-1828 | a ticket is made renewable exactly if that is allowed and asked for and every bound is after the end time; the renew-till time is then the least of the bounds |
| `TgsIssue.Admit` | src/kdc/kdc_util.c:1454-1653 | refuses, in order, a header ticket marked INVALID that is not to be validated, a foreign one that claims a local client, what validate_tgs_request refuses, a protocol transition for another service than the one that asks or with options of its own or for a user that policy rejects or by referral, and a proxy request with such options, whose evidence is not for the header client or not forwardable, or for a TGS, another realm or a service that the KDB's policy rejects |
| `TgsPolicy.ValidateTgsRequest` | src/kdc/tgs_policy.c:320-385 | the first error of the option, time, service-policy, ticket-name, anonymity and site-policy checks, or 0 |
| `TgsPolicy.GrantedNames` | src/kdc/tgs_policy.c:282-318 | what is granted with an option about the ticket itself is for the service the ticket is for, and everything else needs a ticket for the TGS of the service's realm |
| `TgsPolicy.CheckTgsSvcDenyOpts` | src/kdc/tgs_policy.c:100-134 | the error of the first rule by which the service's entry forbids an option asked for, or 0 |
| `TgsPolicy.CheckTgsOpts` | src/kdc/tgs_policy.c:65-98 | passes exactly if the header ticket has every flag that the options asked for need |
| `TgsIssue.CheckIndicators` | src/kdc/kdc_util.c:779-811 | passes exactly if the service requires no indicator or the ticket has one of those it names |
| `TgsIssue.FillFlags` | src/kdc/do_tgs_req.c:406-476 | accumulating the flags step by step gives the intended set |
| `TgsIssue.FillReply` | src/kdc/do_tgs_req.c:371-529 | overwriting the reply step by step gives flags, times, addresses and client as intended for plain, renew, validate, proxy and protocol-transition requests |
| `TgsIssue.ProcessTgsReq` | src/kdc/do_tgs_req.c:371-688 | admission, indicators, reply, transit policy and authorization data in order: the issued ticket or the first error |
| `TgsReplies.GrantedExactly` | src/kdc/do_tgs_req.c:371-688 | a ticket is issued exactly if the request is not refused, the indicators can be read and one that the service requires is among them, the transit path is accepted, and the contents can be made |
| `TgsReplies.RefusalIs` | src/kdc/tgs_policy.c:65-385 | the code of the first check that fails, each check and code spelled out in terms of options, flags, times, attributes and names, or 0 |
| `TgsReplies.IssuedEnd` | src/kdc/kdc_util.c:1754-1780 | a ticket that is not renewed ends at the latest time that the header ticket, the requested till and the limits of service, realm and intermediary or user all allow |
| `TgsReplies.IssuedRenewal` | src/kdc/do_tgs_req.c:490-510 | a renewed ticket ends at the latest time within the old ticket's life and renew-till time |
| `TgsReplies.IssuedRenewTill` | src/kdc/kdc_util.c:1787-1828 | a ticket that can be renewed after it ends is so until the latest time that all bounds allow, and otherwise has no renew-till time |
| `TgsReplies.IssuedFlagsAre` | src/kdc/do_tgs_req.c:406-529 | for each flag, the exact condition under which an issued ticket has it |
| `TgsReplies.IssuedWho` | src/kdc/do_tgs_req.c:371-600 | the client, session key, authtime, start time and addresses of an issued ticket |
| `TgsReplies.InputIs` | src/kdc/do_tgs_req.c:590-688 | what the authorization data of an issued ticket is made from |
| `PadataCheck.CheckPadata` | src/kdc/kdc_preauth.c:1197-1238 | run to its end with modules that respond once, the check gives exactly one answer, the right one for the attempts made, which follow the verifiable elements in order up to the stopping point |
| `PadataCheck.VerifiersAre` | src/kdc/kdc_preauth.c:1150-1195 | the systems called on to verify are, in order, those that handle an element of the request and can verify |
| `PadataCheck.CompleteMeans` | src/kdc/kdc_preauth.c:1073-1148 | attempts go on past failures of systems that are not required and successes of systems that are not sufficient, to the first other outcome or the end |
| `PadataCheck.AnswerAfterFailure` | src/kdc/kdc_preauth.c:998-1068 | the code and error data reported for the failure, and when ETYPE-INFO2 is added to them |
| `PadataCheck.AnswerIsZeroIff` | src/kdc/kdc_preauth.c:1036-1068 | the answer is 0 exactly when nothing was verifiable, or something verified and no required system failed |
| `PadataCheck.AnswerIsDetermined` | src/kdc/kdc_preauth.c:998-1068 | the answer is a function of the attempts: the required failure, else the first failure with error data, else the last failure |
| `PadataCheck.ReportedIsUnique` | src/kdc/kdc_preauth.c:1073-1148 | exactly one failure can be the one reported |
| `PadataCheck.RememberedIs` | src/kdc/kdc_preauth.c:1096-1130 | the failure remembered in the fields is the one to report |
| `PadataCheck.FilterPreauthError` | src/kdc/kdc_preauth.c:949-991 | filtering maps 0 and only 0 to 0, and every code to itself or to the general failure |
| `PadataCheck.FilteredExactly` | src/kdc/kdc_preauth.c:949-991 | the codes that are passed on, and no others |
| `PadataCheck.PadataState.FinishCheckPadata` | src/kdc/kdc_preauth.c:998-1068 | gives the answer that is right for the complete attempts |
| `PadataCheck.PadataState.NextPadata` | src/kdc/kdc_preauth.c:1150-1187 | passes over what no system verifies and either awaits the next verification or answers; it ends |
| `PadataCheck.PadataState.RecordRequiredFailure` | src/kdc/kdc_preauth.c:1073-1116 | after a required module fails the check stops, with that failure to report |
| `PadataCheck.PadataState.RecordFailure` | src/kdc/kdc_preauth.c:1073-1124 | after another module fails the check goes on, and the fields still record the attempts |
| `PadataCheck.PadataState.RecordSuccess` | src/kdc/kdc_preauth.c:1124-1148 | after a success the check stops exactly if the module is sufficient, and the fields still record the attempts |
| `PadataCheck.RecordTells` | src/kdc/kdc_preauth.c:1036-1068 | without a required failure and with no success, what the fields record is the failure to report |
| `PadataCheck.PadataState.FinishVerifyPadata` | src/kdc/kdc_preauth.c:1073-1148 | a response adds one attempt, its flags, and its authorization data if it succeeded; the object stays valid and moves on |
| `PreauthTypes.PaListIncludes` | src/kdc/kdc_preauth.c:628-637 | true exactly if an element has the type |
| `PreauthTypes.FindPaSystem` | src/kdc/kdc_preauth.c:589-601 | the first system of the type, if any |
| `PreauthTypes.SystemForIs` | src/kdc/kdc_preauth.c:589-601 | that is the one of least index, and there is none exactly if no system has the type |
| `PaOrder.SortPaOrder` | src/kdc/kdc_preauth.c:638-693 | the array holds a permutation of all systems with a return function, then -1: first the key replacers whose type the client sent, in table order, then the other replacers, then the rest; every index is in bounds |
| `PaOrder.SortedMeans` | src/kdc/kdc_preauth.c:638-693 | every system with a return function occurs once, by rank, the first rank in table order |
| `PaOrder.BringForward` | src/kdc/kdc_preauth.c:652-692 | one pass brings the marked entries to the front, in their order, as a rearrangement |
| `PaOrder.SwapKeeps` | src/kdc/kdc_preauth.c:652-692 | swapping an unmarked entry with the next marked one keeps the marked ones in order |
| `PaOrder.SortedTwice` | src/kdc/kdc_preauth.c:671-692 | the second pass completes the order |
| `PaOrder.DefaultOrder` | src/kdc/kdc_preauth.c:643-650 | the systems with a return function, in table order, then -1 |
| `PaOrder.CountLeading` | src/kdc/kdc_preauth.c:675-678 | the number of leading key replacers |
| `ReturnPadata.ReturnPadata` | src/kdc/kdc_preauth.c:1244-1346 | systems are called in sorted order; at most one call changes the key, no replacer is called after it, every other system sees the final key; what is sent is what they prepared, or the first error |
| `ReturnPadata.EtypeInfoNamesFinalKey` | src/kdc/kdc_preauth.c:1482-1498 | every etype-info element in the list that is sent names the enctype of the final reply key |
| `ReturnPadata.EtypeInfoIsSent` | src/kdc/kdc_preauth.c:1482-1498 | a client with a key is sent ETYPE-INFO2, and ETYPE-INFO exactly if no requested enctype demands the other; nobody else is sent either |
| `ReturnPadata.StepCall` | src/kdc/kdc_preauth.c:1293-1328 | one more call keeps all of that |
| `HintList.GetPreauthHintList` | src/kdc/kdc_preauth.c:837-871 | the list is exactly, in table order, the elements of the offered systems whose edata step succeeded, at most one per system |
| `HintList.HintsAre` | src/kdc/kdc_preauth.c:789-871 | the list has, in table order, exactly one element for each system that is not a pseudo system, is hardware if only hardware will do, and did not fail |
| `HintList.HintsDependOnAsked` | src/kdc/kdc_preauth.c:808-835 | it depends only on the modules that are asked |
| `HintList.HintState.HintListNext` | src/kdc/kdc_preauth.c:808-835 | passes over systems that are not offered, adds empty elements, and awaits the next module or responds once; slots stay in bounds and it ends |
| `HintList.HintState.FinishGetEdata` | src/kdc/kdc_preauth.c:789-806 | a response adds its element exactly if it succeeded |
| `EncryptedChallenge.EcVerify` | src/kdc/kdc_preauth_ec.c:51-142 | succeeds exactly if the challenge is armored and the first client key that decrypts it gives a timestamp less than the clock skew before or after now; sets PRE_AUTH exactly then; the code says if armor is missing or no key decrypts |
| `AsExchange.Serve` | src/kdc/do_as_req.c:493-829 | an AS exchange ends with exactly one response. It is an AS-REP if and only if nothing fails before or after, the attempts let the client pass, and an attempt set PRE_AUTH if the entry requires it or the request is anonymous, and HW_AUTH if the entry requires that; otherwise the client is told why not, with the hint list where it may try again |
| `AsExchange.DemandedIsSet` | src/kdc/kdc_preauth.c:710-746 | a demanded flag in the reply was set by an attempt of this exchange |
| `AsExchange.IssuedOnlyAfterVerification` | src/kdc/kdc_preauth.c:710-746 | if modules set flags only on success, each demanded flag of an issued ticket comes from a verification that succeeded |
| `AsExchange.AsRepExactly` | src/kdc/do_as_req.c:172-447 | the response is an AS-REP exactly when no early check, no verification, no demanded flag and no assembling step stands in the way |
| `AsExchange.ResponseIs` | src/kdc/do_as_req.c:172-447 | the response in terms of the request's attributes and options and the flags the attempts set: a reply, or the error, its code, status and error data |
| `AsExchange.MissingMeansDemanded` | src/kdc/kdc_preauth.c:710-746 | nothing is missing exactly when the flags include all the client's entry demands |
| `AsExchange.InitialFlags` | src/kdc/do_as_req.c:723-748 | neither PRE_AUTH nor HW_AUTH is set before pre-authentication |
| `AsExchange.InitialFlagsAre` | src/kdc/do_as_req.c:723-748 | for each flag, when an initial ticket starts out with it |
| `AsExchange.AsReqState.FinishProcessAsReq` | src/kdc/do_as_req.c:172-447 | one response: the error, the failure to assemble, or the reply; nothing is sent for a discard |
| `AsExchange.AsReqState.FinishPreauth` | src/kdc/do_as_req.c:457-490 | goes on to the hint list exactly for a plain failure or a missing flag |
| `AsExchange.AsReqState.AfterHints` | src/kdc/do_as_req.c:449-455 | responds with the hint list once it is there |
| `AsExchange.AsReqState.ProcessAsReq` | src/kdc/do_as_req.c:493-829 | starts the exchange: responds to early errors, otherwise checks the pa-data |
| `AsExchange.AsReqState.FinalHints` | src/kdc/kdc_preauth.c:837-871 | the hint list that is sent is the one the modules' responses make |
| `AsExchange.AsReqState.VerifyResponds` | src/kdc/kdc_preauth.c:1073-1148 | each module response leaves strictly less to await, and the state valid |
| `AsExchange.AsReqState.EdataResponds` | src/kdc/kdc_preauth.c:789-806 | the same for the hint list |
| `Cookies.CookieExchange` | src/kdc/fast_util.c:563-733 | after any sequence of set calls, the cookie is the one the values make, and reading it back for the same client gives, for each type, the first value set, if and only if it is read within 600 seconds, also after a rollover if it is still legible; other types and late cookies give nothing |
| `Cookies.MadeCookieOpens` | src/kdc/fast_util.c:563-733 | a made cookie opens for its client to the values and time it was made with, after keys of other versions are added, if and only if its version is at least 1 or the newest key decrypts it to them; with no keys added it always does |
| `Cookies.MadeForOneClient` | src/kdc/fast_util.c:497-541 | with a suite that keeps clients apart, a cookie made for one client opens for no other |
| `Cookies.TrivialCookie` | src/kdc/fast_util.c:671-695 | without values or TGT entry the cookie is the three bytes MIT, which open to nothing |
| `Cookies.KeyAfterRollover` | src/kdc/fast_util.c:497-541 | the version in a cookie names the key it was made in, before and after a rollover |
| `Cookies.FirstSetIsKept` | src/kdc/fast_util.c:649-667 | of several values set for a type the first is kept |
| `Cookies.LateCookieIsNotReported` | src/kdc/fast_util.c:557-627 | a cookie read after its lifetime beside an element of a type that was set has a documented code that is not returned |
| `Cookies.IsRelevant` | src/kdc/fast_util.c:543-555 | true exactly if some value is of a type the request has an element of |
| `Cookies.LostAtVersionZero` | src/kdc/fast_util.c:497-541 | a cookie made under version 0 is not opened once a newer key that does not decrypt it arrives |
| `Cookies.VersionZeroNamesTheNewest` | src/kdc/fast_util.c:497-541 | version 0 in a cookie means the newest key at the time of reading |
| `Cookies.KvnoReadsBack` | src/include/k5-platform.h:560-619 | the four version bytes read back as the version, as a signed 32-bit number |
| `Cookies.KvnoBytesAre` | src/include/k5-platform.h:560-619 | the version bytes are the big-endian numeral of the version, read as a signed 32-bit number |
| `Cookies.GetCookieKey` | src/kdc/fast_util.c:497-541 | the key derived from the first permitted TGT key of the version, with the version found |
| `Cookies.FindPaData` | src/lib/krb5/krb/fast.c:621-637 | the first element of the type |
| `Cookies.RequestState.SetCookie` | src/kdc/fast_util.c:649-667 | adds the value unless the type has one |
| `Cookies.RequestState.MakeCookie` | src/kdc/fast_util.c:671-733 | the trivial cookie without values or TGT entry, else the sealed one |
| `Cookies.RequestState.ReadCookie` | src/kdc/fast_util.c:563-627 | takes the values of a cookie that opens and has not expired; otherwise leaves the state; returns 0, which is the documented code exactly unless the cookie opens, has expired and is relevant |
| `Cookies.RequestState.SearchCookie` | src/kdc/fast_util.c:631-645 | the value of the type, if any |
| `DispatchRuns.OneEachAlongRun` | src/kdc/dispatch.c:121-202 | over every run, no packet has two processings in flight and each one in flight has an entry with an empty reply, if and only if no step drops the entry of a request in flight |
| `DispatchRuns.StepKeepsExactly` | src/kdc/dispatch.c:73-202 | the same for one arrival or completion |
| `DispatchRuns.RoomyRunsAreSafe` | src/kdc/replay.c:198-204 | runs of any length have that property if at each step the new entry fits and the entries of the other requests in flight are less than two minutes old |
| `DispatchRuns.FreshSurvives` | src/kdc/replay.c:198-204 | a fresh entry outlives the purge if there is room |
| `DispatchRuns.SlowRequestTwiceInFlight` | src/kdc/replay.c:198-204 | a request that takes two minutes can be in flight twice |
| `DispatchRuns.DuplicateInFlight` | src/kdc/dispatch.c:146-169 | a duplicate of a request in flight changes nothing and is answered with code 0 and an empty reply |
| `DispatchRuns.HitIsAnswered` | src/kdc/dispatch.c:146-169 | no hit is discarded: it is answered with the cached reply, whole over TCP or if it fits a datagram, else with the too-big error |
| `DispatchRuns.DuplicatesGetTheReply` | src/kdc/dispatch.c:73-169 | after a completion with a reply, every later arrival of the packet gets that reply and is not processed, while its entry is kept: the whole reply over TCP or if it fits, and the too-big error over UDP if it does not |
| `DispatchRuns.CompletionSettles` | src/kdc/dispatch.c:73-91 | a completion caches the whole reply, too big for its datagram or not |
| `DispatchRuns.CompletionIsAnswered` | src/kdc/dispatch.c:50-91 | a completion is answered with its reply and code, by the way the request came, whole or with the too-big error |
| `DispatchRuns.FailureIsForgotten` | src/kdc/dispatch.c:73-91 | a request that completes without a reply is forgotten and nothing else is; one to be discarded leaves the cache as it is |
| `DispatchRuns.MissIsProcessed` | src/kdc/dispatch.c:121-190 | an arrival not in the cache is in flight afterwards and marked with an empty reply; nothing is sent |
| `DispatchRuns.AnswersAreGenuine` | src/kdc/dispatch.c:146-169 | over every run, a packet answered from the cache gets the empty reply or one that an earlier completion produced for the same packet |
| `DispatchRuns.CachedRepliesAreGenuine` | src/kdc/replay.c:184-228 | over every run, every non-empty cached reply was produced with code 0 for that packet |
| `DispatchRuns.CacheStaysBounded` | src/kdc/replay.c:198-204 | over every run, the cache is within its size limit or has a single entry |
| `DispatchRuns.UniqueAlongRun` | src/kdc/replay.c:184-228 | over every run, no packet has two entries, as insertion assumes |
| `Dispatch.Dispatcher.Receive` | src/kdc/dispatch.c:121-202 | a hit is answered from the cache; a miss enters an empty reply and is in flight |
| `Dispatch.Dispatcher.FinishDispatchCache` | src/kdc/dispatch.c:73-91 | a completion other than a discard removes the entry, caches a reply of code 0, and answers |
| `Dispatch.Dispatcher.FinishDispatch` | src/kdc/dispatch.c:50-71 | answers, with the too-big error in place of a datagram over the limit |
| `Lookasides.Lookaside.constructor` | src/kdc/replay.c:139-150 | an empty cache |
| `Lookasides.Lookaside.FindEntry` | src/kdc/replay.c:125-137 | searching one bucket finds the entry for the packet, if any |
| `Lookasides.Lookaside.DiscardEntry` | src/kdc/replay.c:113-123 | takes the entry out of bucket and queue together, keeping the total size right |
| `Lookasides.Lookaside.Remove` | src/kdc/replay.c:152-161 | takes out the entry for the packet, if any |
| `Lookasides.Lookaside.Check` | src/kdc/replay.c:163-182 | a hit exactly if there is an entry; the reply is present even when empty |
| `Lookasides.Lookaside.Insert` | src/kdc/replay.c:184-228 | purges from the front while stale or over the limit, then appends the entry |
| `Lookasides.Lookaside.Free` | src/kdc/replay.c:230-239 | empties queue, buckets and total size |
| `Lookasides.InsertedIsBounded` | src/kdc/replay.c:198-204 | after an insertion the total is within the limit or the new entry is alone |
| `Lookasides.OldestIsFresh` | src/kdc/replay.c:63-64 | after an insertion the oldest entry is less than two minutes away from now, in either direction |
| `Lookasides.SizeOfOne` | src/kdc/replay.c:106-112 | the size of an entry counts its record, request and reply |
| `TailQueues.TailQueue.constructor` | src/include/k5-queue.h:497-500 | an empty queue |
| `TailQueues.TailQueue.InsertHead` | src/include/k5-queue.h:502-511 | prepends; links stay valid; nothing outside the queue changes |
| `TailQueues.TailQueue.InsertTail` | src/include/k5-queue.h:513-519 | appends |
| `TailQueues.TailQueue.InsertAfter` | src/include/k5-queue.h:521-530 | inserts after the k-th element |
| `TailQueues.TailQueue.InsertBefore` | src/include/k5-queue.h:532-538 | inserts before the k-th element |
| `TailQueues.TailQueue.Remove` | src/include/k5-queue.h:540-550 | removes the k-th element |
| `TailQueues.TailQueue.Concat` | src/include/k5-queue.h:572-579 | appends the second queue and leaves it empty |
| `TailQueues.TailQueue.First` | src/include/k5-queue.h:585-585 | the first element, or null |
| `TailQueues.TailQueue.Last` | src/include/k5-queue.h:588-589 | the last element, or null, though read through the link pair of another element as if it were a head |
| `TailQueues.TailQueue.Prev` | src/include/k5-queue.h:590-591 | the predecessor, or null at the front, read in the same way |
| `TailQueues.TailQueue.Foreach` | src/include/k5-queue.h:552-555 | visits the elements in order |
| `TailQueues.TailQueue.ForeachReverse` | src/include/k5-queue.h:562-565 | visits the elements in reverse order |
| `LinkedLists.Traverse` | src/include/k5-queue.h:169-172 | visits the elements in order |
| `LinkedLists.List.constructor` | src/include/k5-queue.h:131-133 | an empty list |
| `LinkedLists.List.InsertHead` | src/include/k5-queue.h:152-158 | prepends |
| `LinkedLists.List.InsertAfter` | src/include/k5-queue.h:135-142 | inserts after the k-th element |
| `LinkedLists.List.InsertBefore` | src/include/k5-queue.h:144-150 | inserts before the k-th element, without the head at hand |
| `LinkedLists.List.Remove` | src/include/k5-queue.h:160-167 | removes the k-th element, without the head at hand |
| `LinkedLists.SList.constructor` | src/include/k5-queue.h:205-207 | an empty list |
| `LinkedLists.SList.InsertHead` | src/include/k5-queue.h:214-217 | prepends |
| `LinkedLists.SList.InsertAfter` | src/include/k5-queue.h:209-212 | inserts after the k-th element |
| `LinkedLists.SList.RemoveHead` | src/include/k5-queue.h:219-221 | removes the first element |
| `LinkedLists.SList.Remove` | src/include/k5-queue.h:223-234 | removes a member found by walking the list |
| `LinkedLists.SList.RemoveAfter` | src/include/k5-queue.h:236-239 | removes the element after the k-th |
| `SimpleQueues.SimpleQueue.constructor` | src/include/k5-queue.h:277-280 | an empty queue |
| `SimpleQueues.SimpleQueue.InsertHead` | src/include/k5-queue.h:282-286 | prepends |
| `SimpleQueues.SimpleQueue.InsertTail` | src/include/k5-queue.h:288-292 | appends |
| `SimpleQueues.SimpleQueue.InsertAfter` | src/include/k5-queue.h:294-298 | inserts after the k-th element |
| `SimpleQueues.SimpleQueue.RemoveHead` | src/include/k5-queue.h:300-303 | removes the first element |
| `SimpleQueues.SimpleQueue.Remove` | src/include/k5-queue.h:305-316 | removes a member found by walking the queue |
| `SimpleQueues.SimpleQueue.Concat` | src/include/k5-queue.h:328-334 | appends the second queue and leaves it empty |
| `SimpleQueues.SimpleQueue.Last` | src/include/k5-queue.h:336-340 | the last element, or null |
| `CircleQueues.CircleQueue.constructor` | src/include/k5-queue.h:653-656 | an empty circle |
| `CircleQueues.CircleQueue.InsertAfter` | src/include/k5-queue.h:658-668 | inserts after the k-th element |
| `CircleQueues.CircleQueue.InsertBefore` | src/include/k5-queue.h:670-680 | inserts before the k-th element |
| `CircleQueues.CircleQueue.InsertHead` | src/include/k5-queue.h:682-691 | prepends |
| `CircleQueues.CircleQueue.InsertTail` | src/include/k5-queue.h:693-702 | appends |
| `CircleQueues.CircleQueue.Remove` | src/include/k5-queue.h:704-718 | removes the k-th element |
| `CircleQueues.CircleQueue.Foreach` | src/include/k5-queue.h:720-723 | visits the elements in order |
| `CircleQueues.CircleQueue.ForeachReverse` | src/include/k5-queue.h:725-728 | visits the elements in reverse order |
| `CircleQueues.CircleQueue.LoopNext` | src/include/k5-queue.h:739-742 | the next element on the circle of elements alone |
| `CircleQueues.CircleQueue.LoopPrev` | src/include/k5-queue.h:743-746 | the previous one |
| `ByteOrder.LoadStored` | src/include/k5-platform.h:547-714 | for each width and byte order, loading what was stored gives the value back, for every value of that width |
| `ByteOrder.LoadsMean` | src/include/k5-platform.h:594-714 | each load reads the number whose digits to base 256 are the bytes, most or least significant first |
| `ByteOrder.Store16Be` | src/include/k5-platform.h:547-558 | writes the bytes in that order at the position, and nothing else in the buffer |
| `ByteOrder.Store32Be` | src/include/k5-platform.h:560-573 | writes the bytes in that order at the position, and nothing else in the buffer |
| `ByteOrder.Store64Be` | src/include/k5-platform.h:575-592 | writes the bytes in that order at the position, and nothing else in the buffer |
| `ByteOrder.Store16Le` | src/include/k5-platform.h:632-643 | writes the bytes in that order at the position, and nothing else in the buffer |
| `ByteOrder.Store32Le` | src/include/k5-platform.h:645-658 | writes the bytes in that order at the position, and nothing else in the buffer |
| `ByteOrder.Store64Le` | src/include/k5-platform.h:660-677 | writes the bytes in that order at the position, and nothing else in the buffer |
| `ByteOrder.Store` | src/include/k5-platform.h:547-714 | writes exactly the bytes of the value at the position, and nothing else in the buffer |
| `InputCursor.AnyMixOfReads` | src/include/k5-input.h:51-141 | for any mix of integer, native-order and raw-byte reads on any buffer, the values before the first overrun decode the successive slices; the first overrun sets EINVAL, and every read from then on gives the default |
| `InputCursor.BeforeOverrun` | src/include/k5-input.h:68-141 | reads that fit decode the successive slices and leave the rest |
| `InputCursor.AfterError` | src/include/k5-input.h:59-78 | after an error nothing is consumed, the status stays, and every read gives the default |
| `InputCursor.MeaningIs` | src/include/k5-input.h:68-143 | the width, byte order and default of every reader, native order included |
| `InputCursor.StoredReadsBack` | src/include/k5-platform.h:547-714 | any list of integers, in any byte order, and bytes written one after the other reads back equal, with no bytes left |
| `InputCursor.StoreList` | src/include/k5-platform.h:547-714 | writing a list of integers and bytes one after the other yields their bytes |
| `InputCursor.K5Input.constructor` | src/include/k5-input.h:51-57 | the cursor over the whole buffer, status 0 |
| `InputCursor.K5Input.SetStatus` | src/include/k5-input.h:59-66 | the first error stays |
| `InputCursor.K5Input.GetBytes` | src/include/k5-input.h:68-78 | the next bytes, or none and EINVAL on an overrun, or none after an error |
| `InputCursor.K5Input.Get` | src/include/k5-input.h:68-141 | one read, of an integer or of raw bytes |
| `InputCursor.K5Input.GetAll` | src/include/k5-input.h:68-141 | a list of such reads |
| `InputCursor.StoreItem` | src/include/k5-platform.h:547-735 | one store, in a given or the native byte order, or one copy of bytes |
| `ServiceLists.InList` | src/kdc/do_tgs_req.c:1129-1145 | true exactly if the list is there and holds an occurrence of the item bounded by separators or the ends, found by a scan that may overlap |
| `ServiceLists.ListedIsToken` | src/kdc/do_tgs_req.c:1129-1145 | for an item without separators that means it is one of the tokens of the list split on white space and commas |
| `ServiceLists.OtherNamesDiffer` | src/kdc/do_tgs_req.c:1129-1145 | for any other non-empty item the two differ on some list |

## Left out

- Cryptography, DER and key derivation are ideal, as said under Assumptions.
- Memory: allocation failures and freeing are not modelled.
- Times are unbounded integers: sums that overflow 32 bits are not modelled.
- TgsIssue.ProcessTgsReq: takes the AP-REQ authentication of the header ticket (its decryption, expiry and checksum, and that it is not FAST armor) and the decryption of an evidence ticket as done; the KDB's and the site's policy, and what the transit path gives, are inputs.
- TgsIssue.Admit: the same, and so are the checksums of S4U2Self elements and the parsing of enterprise names; what the KDB says of a delegation or of a user is an input.
- TgsPolicy.ValidateTgsRequest: user-to-user requests are not modelled; the hot list, which is always empty in the source, is left out.
- TicketAuthdata.EncTktReply.HandleAuthdata: authorization data modules are what they append; loading them and the error of a required module are not modelled.
- AsExchange.AsReqState.ProcessAsReq: everything ahead of pre-authentication is the first failure, if any, among those steps, also where the source then responds without a message.
- AsExchange.Serve: the steps before pre-authentication and the assembling of the reply are each reduced to the first failure; the contents of the AS-REP are not modelled.
- ReturnPadata.ReturnPadata: every module has its per-request context, so none is passed over for lack of one.
- PadataCheck.PadataState.FinishVerifyPadata: the per-request context of a module is not modelled.
- Cookies.KvnoReadsBack: a byte here is an integer below 256; the shifts and masks are in `ByteOrder`.
- Lookasides.Lookaside.Insert: buckets and queue are sequences of entries here, linked by the LIST and TAILQ operations that are proved separately; a failing clock and the statistics counters are not modelled.
- Dispatch.Dispatcher.Receive: the hash function is a parameter, and so is what processing a request produces; the too-big error is an opaque reply.
- Queue macros: SIMPLEQ, which repeats STAILQ under other names, is not modelled twice.
- ServiceLists.InList: for an empty item the scan goes past the end of a list that has no empty token; that read is not modelled.
- `search_sprinc`, `find_alternate_tgs` and referral policy around `in_list`: straight-line lookups with easy claims.
- FAST armor negotiation, PKINIT, OTP, KDB back ends, plugin loading, logging and audit: library calls and I/O.
- `policy.c`, `k5_os_nothread_once`, JSON, buffers and the other utility headers: easy or declarations only.
