# A verified model of the connector

A model, in Dafny 4.11, of a userspace WireGuard connector: the WireGuard engine it embeds
(handshake, sessions, timers, cookies), the site's data plane (listening sockets, byte bridges,
checksums), the multi-peer router, the WebSocket framing of the control channel and the control
state machine.

Each stateful part comes in two forms. A value with functions says what one call does; a class says how
the code does it, with the same fields, loops and arrays, and its methods are proved to do what the
functions say. What the part is for is then proved of the functions, over every input, every run or
every interleaving.

| file | part |
|---|---|
| `Basics.dfy`, `Constants.dfy` | shared types, packet sizes, the time unit |
| `ReplayWindow.dfy`, `Delivery.dfy` | the anti-replay bitmap as a set of counters; concurrent receivers of one session |
| `Noise.dfy`, `HandshakeSpec.dfy`, `Handshake.dfy`, `HandshakeTheorems.dfy`, `Secrecy.dfy` | symbolic cryptography, IKpsk2 as an interpreter of message tokens, the handshake, agreement, who can compute the keys |
| `RateLimiter.dfy`, `Gateway.dfy` | the rate limiter and its cookies; the tunnel behind it |
| `TunnelSpec.dfy`, `Tunnel.dfy`, `TunnelRuns.dfy` | session ring, queue and timers; what every run keeps |
| `SessionLifetimes.dfy`, `SessionLosses.dfy`, `SessionChoice.dfy` | how long a session lives, exactly when it is lost, and which one is used |
| `Retries.dfy`, `Rekeying.dfy` | retransmission; when a quiet tunnel speaks up |
| `DataPath.dfy`, `Packets.dfy`, `Streams.dfy`, `Connections.dfy` | queue and delivery; what is handed on of a packet; streams of packets over an arbitrary network; connections end to end |
| `Cidr.dfy`, `Demux.dfy`, `Router.dfy` | longest-prefix match, packet layout, routing and demultiplexing |
| `ListenerPool.dfy`, `Shuttle.dfy`, `Site.dfy`, `Checksum.dfy` | the site's data plane: listeners and connections, byte bridges, both together, checksums |
| `WebSocket.dfy`, `Control.dfy` | frames and reassembly; the control machine and its executor |

Cryptography is symbolic: byte strings are terms, a Diffie-Hellman result is an unordered pair of
secrets, and a sealed term opens only with its own key, nonce and associated data. Clock readings,
random values, what a socket accepts and what a remote worker does are parameters or steps of the model.

Some plain statements are false of the code. For these there is an exact condition and, where the
condition does not show one, an input:

- `DataPath.FlushConserves`: draining without a session keeps the packets exactly when the buffer takes
  an initiation, one is pending, or the queue is full. Otherwise it doubles the packet at the head of
  the queue; `DataPath.FlushDoubles` does so in a new tunnel.
- `SessionLosses.HeldExactly` and `SessionLifetimes.InstalledStaysFindable`: eight further indices are
  needed to overwrite a session, counted from its own. An initiator's index may have a successor
  before the session is installed, and then seven do; `SessionLosses.SevenCanSuffice` gives the run.
- `Connections.SimultaneousInitiation`: two tunnels that initiate at once do not end on the same
  session. They end on one each of two that both hold, which is enough for delivery.
- `Checksums.WrappingIsHarmlessIff`: the 32-bit accumulator can wrap, from 65538 words on
  (`Checksums.OverflowPossible`), and the condition says when that changes the result.
- `ReplaySpec.MarkWrapsIff` and `ReplaySpec.QuickCheckWrapsIff`: near 2^64 the window's sums wrap. The
  conditions say which counters are then treated otherwise; `ReplaySpec.LastCounterWraps` gives one.
- `Routers.RoomForCiphertextIff`: the engine's buffer takes datagrams up to 48 bytes over the larger of
  the MTU and 1500, and the connector reads up to 64; `Routers.LongestDatagramHasNoRoom` gives one between.
- `Rekeying.RenewedExactly`: data counts as sent after a session's installation only from the first timer
  call on; `Rekeying.SameDateNotRenewed` gives the runs in which earlier data is forgotten.
- `Demux.IndexFitsIff`: a peer index keeps its place in the packed index only below 2^24.
- `RateLimiterSpec.CookieExchange`: a cookie lets its holder past a loaded limiter exactly in the epoch
  in which it was issued.

## Model

| member | source | states |
|---|---|---|
| ReplaySpec.AcceptanceExact | crates/boringtun/src/noise/session.rs:105-153 | in every sequence of arrivals, a counter is accepted exactly when no equal counter was accepted before it and none accepted before it is 1024 or more ahead |
| ReplaySpec.AcceptedSetIs | crates/boringtun/src/noise/session.rs:105-153 | after any prefix of arrivals the window's set is exactly the counters whose arrival was accepted, and next is one more than the largest |
| ReplaySpec.RejectedForever | crates/boringtun/src/noise/session.rs:86-153 | a counter refused in some state is refused after every further sequence of arrivals, and its membership never changes |
| ReplaySpec.QuickCheckAgreesWithMark | crates/boringtun/src/noise/session.rs:86-153 | in the same state the quick check and the mark agree on success, and a mark succeeds exactly when it changes the window |
| ReplaySpec.ReorderingTolerated | crates/boringtun/src/noise/session.rs:36-38 | any sequence without repetition in which nothing overtakes by 1024 or more is accepted whole |
| ReplaySpec.AcceptedCountBound | crates/boringtun/src/noise/session.rs:183-190 | no more counters are accepted than the value of next |
| ReplaySpec.MarkWrapsIff | crates/boringtun/src/noise/session.rs:105-152 | with 64-bit sums the mark is the one on unbounded numbers if and only if the counter is below 2^64 - 1024, or refused anyway, or the window is younger than the wrapped sum and the counter is not the last |
| ReplaySpec.QuickCheckWrapsIff | crates/boringtun/src/noise/session.rs:86-100 | with 64-bit sums the quick check differs exactly for counters from 2^64 - 1024 on that are behind next |
| ReplaySpec.LastCounterWraps | crates/boringtun/src/noise/session.rs:149-151 | a window below 1024 accepts the counter 2^64 - 1, and next wraps to zero |
| ReplayWindow.ClearedAt | crates/boringtun/src/noise/session.rs:132-147 | position p survives clearing [lo, hi) exactly when no counter in the range maps to p |
| ReplayWindow.ClearedJoin | crates/boringtun/src/noise/session.rs:132-147 | clearing two adjoining ranges is clearing their union, so bit, word and bit loops compose |
| ReplayWindow.BitsAfterClearWord | crates/boringtun/src/noise/session.rs:69-74 | zeroing one word is clearing its 64 counters one position at a time |
| ReplayWindow.ShowsAfterSkip | crates/boringtun/src/noise/session.rs:126-151 | a jump forward loses no live position: the bitmap again shows exactly the accepted counters of the last 1024 |
| ReplayWindow.ShowsAfterSet | crates/boringtun/src/noise/session.rs:110-124 | setting one position in the window shows the set with that counter added |
| ReplayWindow.ReceivingKeyCounterValidator.ClearSkipped | crates/boringtun/src/noise/session.rs:132-147 | the bit loop, the word loop and the closing bit loop together clear exactly [next, counter) |
| ReplayWindow.ReceivingKeyCounterValidator.ClearAll | crates/boringtun/src/noise/session.rs:126-130 | a jump of the whole window clears every position |
| ReplayWindow.ReceivingKeyCounterValidator.SkipTo | crates/boringtun/src/noise/session.rs:126-151 | a counter ahead of next leaves the bitmap showing the set with the counter added |
| ReplayWindow.ReceivingKeyCounterValidator.WillAccept | crates/boringtun/src/noise/session.rs:86-100 | the quick check on the bitmap, for every 64-bit counter, is the check on the set with the sum wrapped as in the code, and below 2^64 - 1024 the check on the set itself |
| ReplayWindow.ReceivingKeyCounterValidator.MarkDidReceive | crates/boringtun/src/noise/session.rs:105-152 | marking on the bitmap, for every 64-bit counter, is marking on the set with wrapped sums, and below 2^64 - 1024 marking on the set itself |
| ReplayWindow.ReceivingKeyCounterValidator.ReceivingCounterMark | crates/boringtun/src/noise/session.rs:183-190 | the locked mark keeps the object invariant, receive_cnt the number of accepted counters and at most next, unless it accepts the counter 2^64 - 1 |
| Delivery.NextKeepsInv | crates/boringtun/src/noise/session.rs:177-190 | each atomic part of a receive keeps: delivered counters are distinct and are exactly the accepted ones |
| Delivery.AtMostOnce | crates/boringtun/src/noise/session.rs:235-278 | in every interleaving of quick checks, decryptions and marks no counter is delivered twice, and receive_cnt is the number delivered and at most next |
| Delivery.RefusedNeverDelivered | crates/boringtun/src/noise/session.rs:177-190 | a counter refused once is refused in every later state and never delivered again in any interleaving |
| Delivery.FreshIsDelivered | crates/boringtun/src/noise/session.rs:235-272 | a fresh counter that is checked, decrypted and marked without interruption is delivered |
| Noise.FirstMessageUnrolled | crates/boringtun/src/noise/handshake.rs:718-782 | the tokens e, es, s, ss of IKpsk2 interpreted one by one give the hash and HMAC chain of the first message |
| Noise.SecondMessageUnrolled | crates/boringtun/src/noise/handshake.rs:820-876 | the tokens e, ee, se, psk interpreted one by one give the chain of the second message |
| HandshakeSpec.AuthenticByOpening | crates/boringtun/src/noise/handshake.rs:487-560 | a first message is what the expected peer would write exactly when both its fields open along the receiver's own chain, and then the two chains end alike |
| Handshakes.Handshake.AppendMac1AndMac2 | crates/boringtun/src/noise/handshake.rs:691-716 | mac1 always, mac2 only with a cookie, and the MAC is remembered for a cookie reply |
| Handshakes.Handshake.FormatHandshakeInitiation | crates/boringtun/src/noise/handshake.rs:718-796 | the unrolled key schedule writes the Noise reference message, moves state to previous and allocates an index; a short buffer changes nothing |
| Handshakes.Handshake.ReceiveHandshakeInitialization | crates/boringtun/src/noise/handshake.rs:487-572 | accepts exactly the reference message of the expected peer with a newer timestamp, with the order of the error cases, and answers it |
| Handshakes.Handshake.FormatHandshakeResponse | crates/boringtun/src/noise/handshake.rs:798-889 | writes the reference second message and splits the keys, which name all four secrets mixed in (Secrecy.ResponderKeyNames); callable only with an initiation received, and its one caller always meets that, so the panic is unreachable |
| Handshakes.Handshake.ReceiveHandshakeResponse | crates/boringtun/src/noise/handshake.rs:574-654 | completes the pending initiation whose index it names, current or previous, exactly when it is the reference message for it, and its keys name all four secrets mixed in (Secrecy.InitiatorKeyNames) |
| Handshakes.Handshake.ReceiveCookieReply | crates/boringtun/src/noise/handshake.rs:656-688 | takes the cookie exactly when the reply names the last message's index and opens with its MAC |
| Handshakes.Handshake.SetStaticPrivate | crates/boringtun/src/noise/handshake.rs:479-485 | a new key keeps the parameters coherent |
| HandshakeTheorems.HandshakeAgreement | crates/boringtun/src/noise/handshake.rs:487-889 | for all keys, ephemerals, preshared keys, timestamps and prior states, an exchange completes if and only if the sides are configured for each other and the timestamp is newer; then the sessions have crossed, distinct keys and crossed indices |
| HandshakeTheorems.InitiationAuthenticIff | crates/boringtun/src/noise/handshake.rs:487-560 | a formatted initiation is authentic to exactly the party it was written for, if it expects the sender |
| HandshakeTheorems.ResponseAuthenticIff | crates/boringtun/src/noise/handshake.rs:574-654 | a response opens at the initiator exactly when the preshared keys agree, and then both sides hold the same transcript |
| HandshakeTheorems.LaterAsNumber | crates/boringtun/src/noise/handshake.rs:232-234 | timestamps are ordered as the 96-bit numbers they are written as |
| HandshakeTheorems.InitiationVerdict | crates/boringtun/src/noise/handshake.rs:487-571 | exactly when an initiation is refused for the key, for a field that does not open, for its timestamp or for a short buffer, and that it is accepted otherwise; the first three leave the handshake unchanged |
| HandshakeTheorems.CookieReplyVerdict | crates/boringtun/src/noise/handshake.rs:656-688 | a cookie is taken if and only if the reply names the last message's index and was sealed for this peer's key over that message's MAC |
| Secrecy.InitiationChain | crates/boringtun/src/noise/handshake.rs:718-795 | the chaining key an initiation leaves is the chain of its ephemeral key, es and ss, written out over HMAC |
| Secrecy.ResponderChain | crates/boringtun/src/noise/handshake.rs:798-889 | the responder's two keys are the chain of the initiation's key, its ephemeral key, ee, se and the preshared key, written out over HMAC |
| Secrecy.InitiatorChain | crates/boringtun/src/noise/handshake.rs:574-654 | the initiator's two keys are the same chain |
| Secrecy.ReceivedChain | crates/boringtun/src/noise/handshake.rs:487-571 | the responder's keys from the initiation it takes, all secrets of both messages written out |
| Secrecy.ResponderKeyNames | crates/boringtun/src/noise/handshake.rs:840-880 | two responders with the same sending key agree in ee, se, the preshared key and the initiation's chaining key |
| Secrecy.InitiatorKeyNames | crates/boringtun/src/noise/handshake.rs:600-650 | the same for two initiators |
| Secrecy.DerivationIsHarmless | crates/boringtun/src/noise/handshake.rs:798-889 | an observer who hashes, authenticates, seals, opens and agrees in any number of steps gets from harmless terms only harmless ones |
| Secrecy.KeysDerivableIff | crates/boringtun/src/noise/handshake.rs:798-889 | for every completed exchange and every set of hidden secrets, an observer of both messages and any data packets who knows the preshared key can derive a transport key if and only if it knows a side of each of ee, es, ss and se |
| Secrecy.ForwardSecrecy | crates/boringtun/src/noise/handshake.rs:798-889 | with both static secrets and the preshared key but neither ephemeral secret, no transport key can be derived |
| HandshakeTheorems.StepKeepsPendingInv | crates/boringtun/src/noise/handshake.rs:472-477 | every operation keeps: a pending initiation carries next_index or its cyclic predecessor, and two pending ones differ |
| HandshakeTheorems.TwoInFlight | crates/boringtun/src/noise/handshake.rs:561-571 | the same in every state reachable from a new handshake by any operations, for any buffer sizes |
| HandshakeTheorems.PeerIndexKept | crates/boringtun/src/noise/handshake.rs:472-477 | no run changes the peer's 24 bits of the index |
| HandshakeTheorems.InitiationTakenOnce | crates/boringtun/src/noise/handshake.rs:551-571 | an accepted initiation is refused, without effect, after every later run |
| HandshakeTheorems.TimestampsGrow | crates/boringtun/src/noise/handshake.rs:551-556 | the remembered timestamp never goes back |
| HandshakeTheorems.ResponseNamesInitiation | crates/boringtun/src/noise/handshake.rs:579-583 | a response that is accepted for a pending initiation answers that initiation's ephemeral key and no other |
| HandshakeTheorems.LogStepKeepsInv | crates/boringtun/src/noise/handshake.rs:579-652 | with ephemerals drawn freshly, no pending initiation is one that was already completed |
| HandshakeTheorems.ResponsesDistinct | crates/boringtun/src/noise/handshake.rs:648-652 | over every run from a new handshake the accepted responses answer pairwise different initiations, so no initiation is completed twice |
| RateLimiterSpec.CookieExchange | crates/boringtun/src/noise/rate_limiter.rs:153-193 | a sender accepts the cookie reply to its latest message, and what it closes next passes from the same address if and only if the limiter is not loaded or the cookie epoch is the same |
| RateLimiterSpec.WrongMac1Refused | crates/boringtun/src/noise/rate_limiter.rs:162-171 | a handshake message is refused for its MAC if and only if its mac1 is not the MAC of its body under the limiter's key, from every source and under every load, and the limiter is then unchanged |
| RateLimiterSpec.ClosedForThisKeyIff | crates/boringtun/src/noise/rate_limiter.rs:55-69 | a limiter of one public key refuses for the MAC exactly the messages closed for another key |
| RateLimiterSpec.RightMac1Exactly | crates/boringtun/src/noise/rate_limiter.rs:173-190 | a message with the right mac1 is counted and passes if and only if the limit is not reached or it carries the cookie of its address for the current 128 s; otherwise it is dropped without a source and answered with that cookie with one |
| RateLimiterSpec.LimitRestored | crates/boringtun/src/noise/rate_limiter.rs:78-86 | after a whole second a reset lets as many messages pass as the limit again, and before that it changes nothing |
| RateLimiterSpec.LimitHolds | crates/boringtun/src/noise/rate_limiter.rs:111-113 | without a source address exactly min(remaining limit, messages with a good mac1) handshake messages pass between resets |
| RateLimiterSpec.LimitOverTime | crates/boringtun/src/noise/rate_limiter.rs:78-86 | over every run of address-less messages and resets with a non-decreasing clock, what passes is at most what is left plus the limit for every whole second since the last reset |
| RateLimiterSpec.LimitPerSecond | crates/boringtun/src/noise/rate_limiter.rs:78-86 | from a new limiter at most limit times (elapsed seconds + 1) messages pass |
| RateLimiting.RateLimiter.ResetCount | crates/boringtun/src/noise/rate_limiter.rs:78-86 | the count is cleared only when a whole period has passed |
| RateLimiting.RateLimiter.FormatCookieReply | crates/boringtun/src/noise/rate_limiter.rs:115-150 | a reply sealed with the next nonce and bound to the message's mac1; a short buffer draws no nonce |
| RateLimiting.RateLimiter.VerifyPacket | crates/boringtun/src/noise/rate_limiter.rs:153-193 | the verdict of the specification, of which WrongMac1Refused and RightMac1Exactly give the exact conditions, and the limiter's new state |
| TunnelRuns.StepKeepsInv | crates/boringtun/src/noise/timers.rs:111-312 | every call keeps: all stored times are at most the tunnel's clock and that at most the real one, each session is in the slot of its index, the queue holds at most 256 packets, and the pending-index invariant |
| TunnelRuns.RunKeepsInv | crates/boringtun/src/noise/timers.rs:111-312 | the same in every state reachable with a non-decreasing clock, so no difference of times is negative |
| TunnelRuns.ReachableInv | crates/boringtun/src/noise/timers.rs:111-312 | the same in every state reachable from a new tunnel |
| TunnelRuns.UpdateInv | crates/boringtun/src/noise/timers.rs:152-166 | after every timer update each remaining session is at most REJECT_AFTER_TIME old |
| SessionLifetimes.InstalledSession | crates/boringtun/src/noise/mod.rs:318-369 | a completed handshake puts its session in its own slot with the current time; a response installs the session it names |
| SessionLifetimes.StepKeeps | crates/boringtun/src/noise/mod.rs:318-429 | one call keeps a stored session, its identity and its timer, unless it expires, is cleared, or the eighth index after its own is allocated |
| SessionLifetimes.SessionFindable | crates/boringtun/src/noise/mod.rs:411-421 | over every run a stored session stays findable by its index, with its keys and its age, if it does not expire, is not cleared, and fewer than eight indices follow its own, also across the 8-bit wrap |
| SessionLifetimes.InstalledStaysFindable | crates/boringtun/src/noise/mod.rs:318-369 | from the installing call on the session stays findable until it expires, is cleared, or as many indices are handed out as its lease: eight, or seven if its index already had a successor |
| SessionLosses.StepLosesExactly | crates/boringtun/src/noise/mod.rs:318-429 | a call loses a stored session if and only if it clears it, lets it expire, or puts another session into its slot |
| SessionLosses.HeldExactly | crates/boringtun/src/noise/mod.rs:318-429 | a session is held throughout a run if and only if no call of the run does one of the three |
| SessionLosses.EighthIndexEvicts | crates/boringtun/src/noise/mod.rs:318-341 | the eighth index after its own, taken by an accepted initiation, evicts a session |
| SessionLosses.LeaseIsTight | crates/boringtun/src/noise/mod.rs:318-369 | when one index short of the lease has been handed out, the next accepted initiation loses the session |
| SessionLosses.KnocksEvict | crates/boringtun/src/noise/mod.rs:318-341 | for every tunnel whose peer has a private key, and with any ephemeral secrets, that peer's next initiations evict a session with fewer than eight later indices, using exactly the indices left of the eight |
| SessionLosses.SevenCanSuffice | crates/boringtun/src/noise/mod.rs:343-369 | for all keys and ephemeral secrets there is a run of a new tunnel that installs a session by a late response and loses it after seven further indices |
| SessionLifetimes.ReceiveResponseEffect | crates/boringtun/src/noise/handshake.rs:574-654 | a response consumes exactly one pending initiation, the one with its index, or changes nothing |
| SessionLifetimes.ReceiveInitiationEffect | crates/boringtun/src/noise/handshake.rs:487-572 | an accepted initiation allocates one index, names it in the session and parks the pending initiation in previous |
| Retries.RetrySpacing | crates/boringtun/src/noise/timers.rs:215-236 | while an attempt goes on only timer updates send initiations, each at least REKEY_TIMEOUT after the last and before REKEY_ATTEMPT_TIME is over; nothing else moves the time of the last one |
| Retries.AttemptStarts | crates/boringtun/src/noise/timers.rs:303-309 | whatever call makes an initiation pending, its time starts the schedule |
| Retries.RetriesOnSchedule | crates/boringtun/src/noise/timers.rs:215-236 | over every run in which the attempt goes on, the n-th repetition comes at least n REKEY_TIMEOUT after the first initiation, and there are at most seventeen |
| Retries.AtMostEighteen | crates/boringtun/src/noise/timers.rs:215-236 | over every run an attempt, begun by any call from any state without a pending initiation, sends at most eighteen initiations |
| Retries.EighteenAreSent | crates/boringtun/src/noise/timers.rs:215-236 | the bound is met: a new tunnel that is asked for a handshake and never answered sends eighteen |
| Retries.GivesUpAtAttemptTime | crates/boringtun/src/noise/timers.rs:217-226 | at REKEY_ATTEMPT_TIME the update reports expiry and empties ring and queue |
| Retries.DeadStep | crates/boringtun/src/noise/timers.rs:195-197 | an expired tunnel stays expired and sends nothing on any call that is not an initiation request or an accepted peer initiation |
| Retries.SilentUntilWoken | crates/boringtun/src/noise/timers.rs:195-197 | the same at every point of every run until it is woken |
| Rekeying.CallNoted | crates/boringtun/src/noise/timers.rs:112-140 | after every call but the timer's, each timer holds the tunnel's clock at the last event of its kind, told from the call and its outcome, and the two wishes what came last, sent or received |
| Rekeying.UpdateNoted | crates/boringtun/src/noise/timers.rs:168-312 | what a timer call leaves in them |
| Rekeying.QuietUpdateExactly | crates/boringtun/src/noise/timers.rs:237-311 | a timer call without a pending handshake sends an initiation exactly when one is due (120, 165 or 15 s), otherwise an empty data packet exactly when a keepalive is due (10 s or the period), or the initiation for want of a session, and otherwise nothing |
| Rekeying.RekeysAfterSending | crates/boringtun/src/noise/timers.rs:244-249 | over every run, a session initiated at T in which data was sent after T is renewed by the timer call from T + 120 s on |
| Rekeying.RekeysAfterReceiving | crates/boringtun/src/noise/timers.rs:255-265 | the same after received data, from T + 165 s on |
| Rekeying.RenewedExactly | crates/boringtun/src/noise/timers.rs:238-266 | over every run, with the peer heard within 15 s, the session is renewed if and only if data was sent after T and 120 s are over, or received and 165 s are over |
| Rekeying.SameDateNotRenewed | crates/boringtun/src/noise/timers.rs:244-249 | data sent before the first timer call after the session's installation does not count as sent after it: the session is then not renewed from 120 to 180 s |
| Rekeying.ResponderWaits | crates/boringtun/src/noise/timers.rs:238-243 | over every run, a session the peer initiated is not renewed for its age |
| Rekeying.RekeysUnanswered | crates/boringtun/src/noise/timers.rs:268-277 | over every run, when the peer was last heard at R and data sent since is unanswered, the timer call from R + 15 s on starts a handshake |
| Rekeying.AnswersWithKeepalive | crates/boringtun/src/noise/timers.rs:282-288 | over every run, when this side last sent at P and has received data since, the timer call from P + 10 s on sends an empty data packet, unless a handshake is due |
| Rekeying.OncePerPeriod | crates/boringtun/src/noise/timers.rs:290-298 | over every run, the persistent keepalive goes out once per configured period |
| Rekeying.CookieLasts | crates/boringtun/src/noise/timers.rs:196-205 | a timer call drops a cookie exactly when it is 120 s old |
| SessionChoice.DataChooses | crates/boringtun/src/noise/mod.rs:390-403 | data that decrypts puts its session into use if and only if none is in use or that one is not newer |
| SessionChoice.HandshakeChooses | crates/boringtun/src/noise/mod.rs:318-369 | a response puts its session into use at once, an initiation does not |
| SessionChoice.NeverOlder | crates/boringtun/src/noise/mod.rs:390-403 | over every run with a session in use throughout, the date of the session in use never goes back |
| DataPath.EncryptedAt | crates/boringtun/src/noise/session.rs:195-229 | the i-th packet of a batch is sealed under the session key with the counter advanced by i |
| DataPath.DrainLive | crates/boringtun/src/noise/mod.rs:510-541 | under a live session draining emits every queued packet once, in order, with consecutive counters, and empties the queue |
| DataPath.DrainPending | crates/boringtun/src/noise/mod.rs:510-541 | with a handshake pending draining stops at once and keeps the multiset of packets |
| DataPath.DrainIdle | crates/boringtun/src/noise/mod.rs:250-268 | without a session draining sends at most one initiation, exactly when packets wait and none was pending, and keeps the multiset of packets |
| DataPath.FlushConserves | crates/boringtun/src/noise/mod.rs:510-541 | a call without a session keeps the multiset of packets if and only if the buffer takes an initiation, a handshake is pending, or the queue is full; otherwise the packet is queued twice |
| DataPath.FlushDoubles | crates/boringtun/src/noise/mod.rs:510-541 | it does happen: in a new tunnel, for every packet, sending with a buffer too short for an initiation and flushing once leaves the packet in the queue twice |
| DataPath.FlushKeepsPackets | crates/boringtun/src/noise/mod.rs:510-541 | no call puts a packet into the queue that was not in it |
| DataPath.FlushProgress | crates/newt/src/tunnel.rs:307-313 | each call that emits something lowers a measure, so the loop that drains terminates |
| DataPath.FirstPacketSwitches | crates/boringtun/src/noise/mod.rs:390-403 | the first packet under the newest session makes the responder use that session |
| DataPath.Established | crates/boringtun/src/noise/mod.rs:318-429 | an initiation, its response and the keepalive leave both tunnels with crossed sessions as their current ones |
| DataPath.ReceivedExactly | crates/boringtun/src/noise/session.rs:235-272 | a data message gives a packet if and only if it names the session's index, its counter is acceptable and it is that packet sealed under the session's key and counter; otherwise the session is unchanged |
| DataPath.PacketWaits | crates/boringtun/src/noise/mod.rs:250-272 | without a session a packet joins the end of the queue, up to 256 |
| DataPath.WaitingPacketsGoOut | crates/boringtun/src/noise/mod.rs:510-522 | packets that waited for the handshake go out when it is done, once each, in order, under the new session |
| Packets.HandedByAnyone | crates/boringtun/src/noise/mod.rs:464-507 | what a tunnel makes of a decrypted packet, in every state: nothing for an empty one; the first n bytes and the source address if and only if the packet is at least the n bytes its header's big-endian length field gives; a refusal otherwise |
| Packets.HandedCounts | crates/boringtun/src/noise/mod.rs:498-501 | the received bytes grow by the length handed on and the data timer is set, exactly when something is handed on |
| Packets.WholePacketHanded | crates/boringtun/src/noise/mod.rs:464-507 | a packet is handed on unchanged if and only if its header gives its own length |
| Streams.MoveKeepsInv | crates/boringtun/src/noise/mod.rs:250-429 | for two tunnels that share any number of crossed sessions, every call on either side (packets, timers, requests, handshake messages, forged data) and the arrival of any message sent, in any order and however often, keep: counters in step and windows equal to the arrivals, on every session neither side has lost |
| Streams.RunKeepsInv | crates/boringtun/src/noise/mod.rs:250-429 | the same over every interleaving of all those calls and arrivals |
| Streams.CallEffect | crates/boringtun/src/noise/mod.rs:250-429 | a call leaves a session that it neither removes nor installs over as it is, or it is the current one and sent exactly one packet |
| Streams.LaneEndsExactly | crates/boringtun/src/noise/mod.rs:318-429 | a shared session is given up in a call exactly when it is lost there or one is installed in its slot |
| Streams.HandedExactly | crates/boringtun/src/noise/session.rs:235-272 | an arrival is handed on if and only if no earlier arrival that was handed on is the same message or 1024 or more ahead; otherwise it is refused for its counter |
| Streams.ReorderedStreamArrives | crates/boringtun/src/noise/session.rs:235-272 | any order of arrival without repetition in which nothing is overtaken by 1024 or more is handed on whole, each packet as its own header says |
| Streams.WholePacketsArrive | crates/boringtun/src/noise/mod.rs:464-507 | on such a stream a packet as long as its header says arrives as it was sent |
| Connections.EndToEnd | crates/boringtun/src/noise/mod.rs:250-429 | for all keys and all reachable states of two tunnels configured for each other, a handshake connects them, and then over every interleaving of calls on both sides and arrivals each arrival on their session is decided by its counter alone, as long as neither side loses the session |
| Connections.SimultaneousInitiation | crates/boringtun/src/noise/mod.rs:318-403 | two tunnels that initiate at once both succeed and share two sessions; their current sessions are not counterparts of each other, and still each arrival on either is decided by its counter alone over every interleaving |
| Gateways.Gateway.constructor | crates/boringtun/src/noise/mod.rs:194-224 | a limiter for the tunnel's own key unless one is shared, and whether the tunnel resets it |
| Gateways.Gateway.SetStaticPrivate | crates/boringtun/src/noise/mod.rs:227-242 | a new key drops every session and replaces the limiter by the shared one or a new one for that key |
| Gateways.Gateway.UpdateTimers | crates/boringtun/src/noise/timers.rs:168-312 | the timer step together with the reset of a limiter of its own; room is demanded only if a data packet goes out |
| Gateways.Gateway.Decapsulate | crates/boringtun/src/noise/mod.rs:276-302 | the empty datagram flushes, a malformed one fails, the others pass the limiter first; room is demanded exactly where the code panics without it, for ciphertext as well |
| Gates.ReachesTheTunnel | crates/boringtun/src/noise/mod.rs:276-316 | a datagram causes one step of the tunnel or none, so what holds of its runs holds behind the limiter; a refused or cookie-answered message does not touch it |
| Gates.ConnectsUnderLoad | crates/boringtun/src/noise/rate_limiter.rs:153-193 | a loaded responder answers a tunnel's own initiation with a cookie and keeps its state; the repeated initiation is let through in the same epoch under any load, and its answer completes the handshake with crossed keys |
| Tunnels.Tunn.constructor | crates/boringtun/src/noise/mod.rs:194-224 | a new tunnel object is the specification's new tunnel |
| Tunnels.Tunn.ClearAll | crates/boringtun/src/noise/timers.rs:142-150 | empties the ring and the queue and sets every timer to now |
| Tunnels.Tunn.UpdateSessionTimers | crates/boringtun/src/noise/timers.rs:152-166 | the loop over the slots drops exactly the sessions older than REJECT_AFTER_TIME and restarts their timers |
| Tunnels.Tunn.FormatHandshakeInitiation | crates/boringtun/src/noise/mod.rs:433-460 | nothing while one is in progress unless forced; timers are cleared on leaving the expired state |
| Tunnels.Tunn.Encapsulate | crates/boringtun/src/noise/mod.rs:250-268 | encrypts under the current session, or queues and asks for a handshake |
| Tunnels.Tunn.SendQueuedPacket | crates/boringtun/src/noise/mod.rs:510-522 | takes the head of the queue, encapsulates it, and puts it back at the head on failure |
| Tunnels.Tunn.DrainQueue | crates/newt/src/tunnel.rs:307-313 | the drain loop terminates and computes the specification's drain |
| Tunnels.Tunn.SetCurrentSession | crates/boringtun/src/noise/mod.rs:390-403 | switches only to a session at least as new as the current one |
| Tunnels.Tunn.HandleHandshakeInit | crates/boringtun/src/noise/mod.rs:318-341 | installs the responder's session and answers |
| Tunnels.Tunn.HandleHandshakeResponse | crates/boringtun/src/noise/mod.rs:343-369 | installs the initiator's session, makes it current and sends the keepalive |
| Tunnels.Tunn.HandleCookieReply | crates/boringtun/src/noise/mod.rs:371-387 | stores the cookie and stamps its time |
| Tunnels.Tunn.HandleData | crates/boringtun/src/noise/mod.rs:406-429 | looks the session up by slot, decrypts if the ciphertext fits the buffer, switches the current session and validates |
| Tunnels.Tunn.ValidateDecapsulatedPacket | crates/boringtun/src/noise/mod.rs:464-507 | the outcome is the one the packet's own header gives (Packets.Handed): nothing for a keepalive, the packet cut to its claimed length with its source address, or a refusal |
| Tunnels.Tunn.HandleVerifiedPacket | crates/boringtun/src/noise/mod.rs:304-316 | dispatch over the four message kinds |
| Tunnels.Tunn.SetStaticPrivate | crates/boringtun/src/noise/mod.rs:236-241 | the handshake gets the new key and every session is dropped |
| Tunnels.Tunn.UpdateTimers | crates/boringtun/src/noise/timers.rs:178-312 | the whole timer step, for every state that satisfies the invariant; every subtraction of times is shown non-negative; what it sends when is in Rekeying |
| Tunnels.Tunn.UpdateWithPending | crates/boringtun/src/noise/timers.rs:215-236 | expiry at REKEY_ATTEMPT_TIME, repetition after REKEY_TIMEOUT |
| Tunnels.Tunn.UpdateWithoutPending | crates/boringtun/src/noise/timers.rs:237-309 | rekeying on send, on receive and on silence, and both keepalives, as the step that Rekeying.QuietUpdateExactly is about |
| Tunnels.Tunn.SendKeepalives | crates/boringtun/src/noise/timers.rs:279-309 | a keepalive after silence and the persistent one, each once |
| Cidrs.BitsMatchIsShiftedEquality | crates/newt/src/olm/router.rs:48-55 | bits_match is equality of the big-endian integers shifted right by width minus prefix |
| Cidrs.MaskIsShift | crates/newt/src/olm/router.rs:53 | the mask of a partial byte is 0xff shifted left |
| Cidrs.ContainsIsShiftedEquality | crates/newt/src/olm/router.rs:38-45 | the same for ranges and addresses of one family |
| Cidrs.NestedOrDisjoint | crates/newt/src/olm/router.rs:38-45 | two ranges that share an address are nested |
| Demux.LeRoundTrip | crates/boringtun/src/noise/mod.rs:128-163 | little-endian fields of any width read back |
| Demux.FourBytes | crates/boringtun/src/noise/mod.rs:128-163 | the first byte of a 32-bit field counts least |
| Demux.ParseInvertsLayout | crates/boringtun/src/noise/mod.rs:128-163 | parsing a laid-out packet of any of the four kinds gives its fields back |
| Demux.DemuxAgreesWithParser | crates/newt/src/wg.rs:104-115 | on every datagram that parses, peer_index_of is the parsed receiver index without its low byte, and nothing for an initiation |
| Demux.IndexFitsIff | crates/boringtun/src/noise/mod.rs:209 | the peer index survives the shift into a 32-bit index if and only if it is below 2^24 |
| Routing.LongestIs | crates/newt/src/olm/router.rs:143-153 | the longest matching prefix of a list of ranges: attained, and none is longer |
| Routing.BestIsLongestFirst | crates/newt/src/olm/router.rs:143-153 | best_peer is the first peer owning a containing range of maximal prefix, and none exactly when no range contains the address |
| Routing.WithoutExactly | crates/newt/src/olm/router.rs:108-111 | removing a site leaves exactly the peers of other sites |
| Routing.KeptExactly | crates/newt/src/olm/router.rs:131-136 | dropping ranges leaves exactly those not named |
| Routing.RemoveLeavesOthers | crates/newt/src/olm/router.rs:108-110 | removing a site leaves the route of every address outside its ranges |
| Routing.UpsertLeavesOthers | crates/newt/src/olm/router.rs:91-106 | replacing a site leaves the route of every address outside its old and new ranges |
| Routing.EditLeavesOthers | crates/newt/src/olm/router.rs:119-136 | the route of an address depends on a site's ranges only through the longest one containing it |
| Routing.CidrEditsAreLocal | crates/newt/src/olm/router.rs:125-136 | adding or dropping ranges of a site leaves the route of every address outside those ranges |
| Routers.IssuedIndicesLeadBack | crates/boringtun/src/noise/handshake.rs:472-477 | over every run of a tunnel all local indices carry the peer index it was created with |
| Routers.WithoutKeepsInv | crates/newt/src/olm/router.rs:108-110 | removing keeps sites and indices unique and every tunnel's indices its own |
| Routers.AppendKeepsInv | crates/newt/src/olm/router.rs:91-106 | so does adding a peer with the next index, while fewer than 2^24 were added |
| Routers.DemuxExact | crates/newt/src/olm/router.rs:175-193 | a datagram finds peer i if and only if its receiver index carries i's index |
| Routers.ReachesIssuer | crates/newt/src/olm/router.rs:175-193 | after any run of peer i's tunnel, a datagram addressed to a local index it ever issued finds peer i and no other |
| Routers.InboundKeepsOwn | crates/newt/src/olm/router.rs:175-193 | limiting, handling and draining a datagram leaves a peer's site, ranges, endpoint and index, and its tunnel's indices its own |
| Routers.InboundGives | crates/newt/src/olm/router.rs:175-194 | what a datagram decrypts to goes to the host, the tunnel's answer to the peer's endpoint, and with a session in use every packet that waited follows, once and in order |
| Routers.RoomForCiphertextIff | crates/newt/src/wg.rs:52 | the ciphertext of a datagram fits the buffer if and only if the datagram is at most max(mtu, 1500) + 48 bytes long |
| Routers.LongestDatagramHasNoRoom | crates/newt/src/tunnel.rs:208 | the connector receives up to max(mtu, 1500) + 64 bytes: for any index and counter there is such a data packet whose ciphertext does not fit |
| Routers.Router.UpsertPeer | crates/newt/src/olm/router.rs:91-106 | replaces the site, allocates the next index and returns the first initiation, with a limiter of its own; an undecodable key changes nothing |
| Routers.Router.AddCidrs | crates/newt/src/olm/router.rs:125-129 | appends to the ranges of the site's one entry and touches no other, or does nothing |
| Routers.Router.RemoveCidrs | crates/newt/src/olm/router.rs:131-135 | keeps the ranges of the site's one entry that equal none of the dropped ones, or does nothing |
| Routers.Router.BestPeer | crates/newt/src/olm/router.rs:143-153 | the nested loop computes the longest-prefix choice |
| Routers.Router.RouteOutbound | crates/newt/src/olm/router.rs:164-170 | encapsulates at the chosen peer and touches no other |
| Routers.Router.HandleInbound | crates/newt/src/olm/router.rs:175-193 | a datagram carrying peer i's index, well-formed or not, passes i's limiter, is handled and drained by i alone, if the ciphertext and the queued packets fit the buffer; any other changes nothing |
| Checksums.Checksum | crates/newt/src/tunnel.rs:443-450 | both loops terminate for all data and give the complement of the folded sum of the words, with a 32-bit accumulator that wraps |
| Checksums.WordSumByPlace | crates/newt/src/tunnel.rs:443-450 | the sum counts bytes at even places 256-fold and at odd places once |
| Checksums.FoldStep | crates/newt/src/tunnel.rs:448 | folding keeps the value modulo 65535 and its being zero, and makes progress |
| Checksums.WrappingIsHarmlessIff | crates/newt/src/tunnel.rs:444-448 | the result is the RFC 1071 checksum if and only if the carries lost out of 32 bits are none, or a multiple of 65535 that leaves something |
| Checksums.NoOverflow | crates/newt/src/tunnel.rs:444-447 | up to 65537 words the 32-bit accumulator cannot overflow |
| Checksums.OverflowPossible | crates/newt/src/tunnel.rs:444-447 | with 65538 words of ones it does, and the result is wrong |
| Checksums.ZeroOnlyForZeros | crates/newt/src/tunnel.rs:443-450 | the sum is zero exactly for all-zero data |
| Checksums.StoringMakesItCheck | crates/newt/src/tunnel.rs:425-437 | storing the checksum in a zeroed aligned field makes the checksum of the whole zero |
| Checksums.IcmpEcho | crates/newt/src/tunnel.rs:418-440 | both headers of the echo request check, every field is where it belongs, and a tunnel hands the packet on unchanged with its source address |
| Pools.ReplaceKeepsPairs | crates/newt/src/tunnel.rs:348-353 | swapping a listener out and pushing one with its port and target keeps the multiset of pairs |
| Pools.LastWinsPorts | crates/newt/src/tunnel.rs:269-292 | the table of a list of targets has exactly the ports they name |
| Pools.LastWinsExactly | crates/newt/src/tunnel.rs:269-292 | and each port leads where the last target for it says |
| Pools.AddedPorts | crates/newt/src/tunnel.rs:239-252 | adding serves the ports served before, unchanged, and those named |
| Pools.AddedExactly | crates/newt/src/tunnel.rs:239-252 | a new port leads where the first target for it says |
| Pools.DataPlane.Promote | crates/newt/src/tunnel.rs:348-353 | the listening socket becomes the connection's and a fresh one takes over port and target; live sockets stay the disjoint union of listeners and connections |
| Pools.DataPlane.AcceptNew | crates/newt/src/tunnel.rs:335-355 | the reverse swap_remove loop promotes exactly the active listeners, each once, keeps the others and the multiset of (port, target), one entry per port, and all earlier connections |
| Pools.DataPlane.AddTargets | crates/newt/src/tunnel.rs:239-251 | from one entry per port, adds exactly the ports not yet served, the first spec winning, and leaves the old listeners in place |
| Pools.DataPlane.RemoveTargets | crates/newt/src/tunnel.rs:254-263 | keeps exactly the listeners whose port no spec names |
| Pools.DataPlane.DropPort | crates/newt/src/tunnel.rs:257-261 | the removal loop drops exactly the listeners of one port |
| Pools.DataPlane.ApplyAll | crates/newt/src/tunnel.rs:281-293 | redirects or adds each wanted target, keeping ports and handles in place |
| Pools.DataPlane.ReconcileTargets | crates/newt/src/tunnel.rs:269-294 | from one entry per port the listeners become exactly the last-wins table of the specs, kept ports keep their sockets, connections are untouched, and a pool that already shows the table is left as it is |
| Bridges.UpstreamKept | crates/newt/src/tunnel.rs:362-375 | each step of the loop, the target's worker or the socket conserves the bytes towards the target, and loses none while the worker runs |
| Bridges.DownstreamKept | crates/newt/src/tunnel.rs:380-407 | each step conserves the bytes towards the peer, and a FIN presupposes an ended target and nothing pending |
| Bridges.NothingLostOrReordered | crates/newt/src/tunnel.rs:357-414 | after every interleaving both directions deliver a prefix, the backlog is exactly the difference, both channels stay bounded, and a FIN means that everything was handed over |
| Bridges.SilentAfterFin | crates/newt/src/tunnel.rs:400-407 | after the FIN no byte is handed to the socket in any continuation |
| Bridges.ReceiveSideRuns | crates/newt/src/tunnel.rs:362-375 | the receiving loop is a run of loop steps and stops only when the channel is full or closed or the socket has or gives nothing |
| Bridges.ServeRuns | crates/newt/src/tunnel.rs:357-414 | a whole pass over a bridge is a run of loop steps, so all of the above holds of passes |
| Bridges.FinWithin | crates/newt/src/tunnel.rs:380-407 | an ended target's backlog is handed over and its end passed on within one pass per chunk plus one, plus one for a leftover |
| Bridges.PassHands | crates/newt/src/tunnel.rs:379-406 | what a pass does towards the peer, whether or not the target runs: an open socket gets the next bytes, as many as it has room for, the rest waits, and the end is passed on exactly when the target has ended and nothing is left |
| Bridges.PassProgress | crates/newt/src/tunnel.rs:388-397 | a pass hands over more if and only if the socket is open and has room and something is pending or queued |
| Bridges.HandsOverAll | crates/newt/src/tunnel.rs:379-397 | with room, one pass per queued chunk and one for a leftover hand over everything read that the worker does not still hold |
| Bridges.PassTakes | crates/newt/src/tunnel.rs:357-375 | a pass takes all received bytes, in order, unless the channel is full |
| Shuttles.Shuttle.Receive | crates/newt/src/tunnel.rs:362-375 | the reserve-read-send loop terminates and does what its specification says |
| Shuttles.Shuttle.Send | crates/newt/src/tunnel.rs:380-407 | pulls, flushes and closes as its specification says, of which Bridges.PassHands gives the outcome |
| Shuttles.Shuttle.Pump | crates/newt/src/tunnel.rs:357-414 | a pass serves every bridge once and removes exactly those whose socket is no longer open, with their sockets |
| Sites.Site.Round | crates/newt/src/tunnel.rs:335-414 | accepting, bridging, pumping and reaping together: both tables keep the same connections and sockets, live sockets stay the disjoint union of listeners and connections, each connection keeps its bridge and target, and the multiset of (port, target) stays |
| ControlSpec.HandleKeepsInv | crates/newt-core/src/sm.rs:88-151 | each event with its executed actions keeps: the data plane exists exactly in Connected, and no bring-up replaces a live plane |
| ControlSpec.PlaneMatchesState | crates/newt/src/tunnel.rs:112-127 | the same over every run that starts with one WsConnected; while requesting or registering the next resend is in the future |
| ControlSpec.ResendsPaced | crates/newt-core/src/sm.rs:131-148 | n resends in a phase take at least n periods, counted from the time already waited |
| ControlSpec.ResendsBounded | crates/newt-core/src/sm.rs:46-47 | the number of tick resends in a phase is at most elapsed time divided by its period |
| ControlSpec.DueTickSends | crates/newt-core/src/sm.rs:131-148 | a tick that completes the wait sends the phase's own message once and starts a whole period, and one that does not only shortens the wait |
| ControlSpec.ResendsKeepUp | crates/newt-core/src/sm.rs:131-148 | with ticks of at most d, a phase of t milliseconds has repeated its message more than t / (period + d) - 1 times |
| ControlSpec.ResendsEverySecond | crates/newt-core/src/sm.rs:131-148 | with ticks of one second it is repeated exactly once per period |
| ControlSpec.WayToConnected | crates/newt-core/src/sm.rs:88-148 | over every run from the connection to the tunnel, exit nodes are asked for until some are named, then the first is registered with until the tunnel is brought up, and nothing else is said |
| Control.Sm.StepImpl | crates/newt-core/src/sm.rs:88-151 | the assignments and pushed actions are the machine's step |
| Control.HandleEvent | crates/newt/src/tunnel.rs:47-100 | the loop over the actions executes them in order and stops at the first failure |
| Frames.MaskedTwice | crates/newt/src/transport/ws.rs:207-211 | unmasking undoes masking |
| Frames.XorIsDigitwise | crates/newt/src/transport/ws.rs:168-170 | masking a byte is exclusive or, binary digit by binary digit |
| Frames.SpecifiedFrames | crates/newt/src/transport/ws.rs:154-173 | the single-frame examples of section 5.7 of RFC 6455 come out as printed there |
| Frames.LengthRoundTrip | crates/newt/src/transport/ws.rs:158-166 | each of the three length forms reads back |
| Frames.DecodeInvertsEncode | crates/newt/src/transport/ws.rs:154-213 | a frame with or without mask, followed by anything, decodes to itself and leaves the rest |
| Frames.EncodingIsShortest | crates/newt/src/transport/ws.rs:158-166 | no byte string that decodes to the frame is shorter than its encoding |
| Frames.StreamRoundTrip | crates/newt/src/transport/ws.rs:154-213 | the concatenated encodings of any list of frames decode to that list with no bytes left |
| Reassembly.ReassemblesText | crates/newt/src/transport/ws.rs:120-151 | a text message in any fragments with pings and pongs between them is received as the unsplit message, with one pong per ping and the rest of the stream untouched |
| Reassembly.OtherEnds | crates/newt/src/transport/ws.rs:120-151 | a close frame, an unknown opcode and a stream that stops end the receive as such |
| Reassembly.BinarySkipped | crates/newt/src/transport/ws.rs:120-151 | a binary message is dropped and the receive goes on |
| WebSockets.Ws.WriteFrame | crates/newt/src/transport/ws.rs:154-173 | appends the masked encoding of the frame |
| WebSockets.Ws.Unmask | crates/newt/src/transport/ws.rs:207-211 | unmasks the array in place |
| WebSockets.Ws.ReadLength | crates/newt/src/transport/ws.rs:182-194 | reads the length in the form its first byte announces |
| WebSockets.Ws.ReadFrame | crates/newt/src/transport/ws.rs:176-213 | reads exactly what the decoder says, with end of stream and the frame-size limit |
| WebSockets.Ws.Recv | crates/newt/src/transport/ws.rs:120-151 | the receiving loop returns what its specification says and has written the pongs |

## Left out

- Real X25519, BLAKE2s, ChaCha20-Poly1305 and random numbers: terms stand for them, and two draws differ only where a lemma says so.
- Tunnels.Tunn.HandleData: requires counters below 2^64 - 1024. The sessions in the ring have windows on unbounded numbers; what the bitmap does beyond is in `ReplaySpec.MarkWrapsIff`.
- Tunnels.Tunn.HandleVerifiedPacket: requires the same of data packets, and so does `Gateways.Gateway.Decapsulate`.
- Tunnels.Tunn.Encapsulate: requires a buffer of packet plus 32 bytes when there is a session to encrypt under, and `HandleData` one that holds the ciphertext when there is a session in the slot; the code panics otherwise. The methods that call them require the same in the same cases. Buffers too short for a handshake message are modelled.
- Gateways.Gateway.Decapsulate: requires room for a cookie reply when one is due, into which the code copies it without a check.
- Secrecy.KeysDerivableIff: the observer is passive; it has seen the two messages of one completed exchange and data packets. That nobody else can complete an exchange is in `HandshakeTheorems`.
- Streams.MoveKeepsInv: data from elsewhere is sealed under none of the shared sessions' keys, which is what keeping a key secret means for symbolic terms; sessions made by later handshakes are not followed.
- The router holds its tunnels and limiters as values, with the functions that the tunnel and limiter objects are proved to follow.
- Several clock readings inside one call: each call has one reading.
- Sending counters of a session are unbounded numbers, and so are the limiter's count and nonce counter.
- The tunnel's ring holds session values; the bitmap object is verified on its own and stands for the set in them.
- `format_handshake_initiation` with force, called from outside: only `update_timers` forces in this repository, and runs have it there.
- Loss estimation in floating point, round-trip times and statistics.
- `parse_handshake_anon`, `dst_address` and `dest_ip`: one branch each; routing takes the destination as a parameter.
- Parsing of ranges and targets from text: a range is a valid range, and target parsing is an arbitrary partial function.
- The router's `set_endpoint`, `all_cidrs`, `route_target` and `tick`: they change or read one field per peer.
- Routers.Router.UpsertPeer: requires fewer than 2^24 peers added so far; beyond that indices are no longer unique.
- Pools.DataPlane.ReconcileTargets: says what the table becomes only from one entry per port, which bring-up does not enforce when the server repeats a port.
- Shuttles.Shuttle.Pump: runs a pass without interference by the targets' workers; interference between any two channel operations is covered by the runs in `Bridges`.
- The shuttle of the client's userspace backend, which is the same algorithm.
- The window and buffer sizes of the sockets, retransmission, and everything else inside the TCP stack, the runtime and the operating system.
- The WebSocket upgrade, TLS, JSON, message bodies, configuration, logging and process-level reconnection.
- Cancellation of a worker between two of its steps.
