# Knock proxy: a verified model

This project models the state-keeping core of a single-packet-authorisation proxy and proves what
that core promises. A client knocks, the server remembers the knock and opens its firewall for a
while, the client connects, and the server relays the connection to an upstream service, over an
encrypted stream if so configured. Around this stand timed bans, a rate limiter, connection slots
and a bounded queue of connections with a fixed number of workers.

`dafny verify dfyconfig.toml` checks everything. The files, by component:

| files | component |
|---|---|
| `Frames`, `SecureReads`, `SecureErrors`, `SecureConns`, `Sessions`, `KeyInputs`, `Bytes` | the encrypted stream |
| `Bans`, `BanRuns`, `BanWindows`, `BanEviction`, `BanKeys`, `BanTrackers` | timed bans |
| `Rates`, `RateRuns`, `RateKeys`, `RateEviction`, `RateLimiters` | the sliding-window rate limiter |
| `Knocks`, `KnockCredits`, `KnockStores` | the store of accepted knocks |
| `ConnectionSlots` | connection slots |
| `Servers`, `ServerSteps` | the server as a step system, all goroutines interleaved, and what a step adds to its log |
| `ServerGate`, `ServerBans`, `ServerOrder`, `ServerSlots`, `ServerMarks`, `ServerPipeline`, `ServerCredits` | what every step of the server keeps |
| `ServerStories`, `ServerConduct`, `ServerDuties`, `ServerOutcomes` | what each connection handler has done when it dials, relays or leaves |
| `ServerCourses`, `ServerPackets` | what each knock and each packet has done when it opens, stores or is admitted |
| `ServerCalls`, `ServerFailures`, `ServerLedgers` | the runs of the tracker, the firewall and the store inside a run of the server |
| `SeriesKeys`, `SeriesLabels`, `Registries` | the metrics registry and its series keys |
| `Base` | facts on sets, maps and multisets |

Each stateful component appears twice. A class updates its fields as the source does, and every
method is proved to make one step of a specification: `Step` in `Bans`, `Rates` and `Knocks`, a
function of the old counters in `ConnectionSlots`, functions from a byte stream to outcomes in
`SecureReads`. The theorems speak of any run of such steps, and the server's step system is built
from the same steps, one per mutex-protected call. Every step logs the call it really makes and the
answer it gets, and the theorems about the server speak of that log.

## What is assumed

- Time is an integer number of nanoseconds. It is positive where the ban tracker is concerned (0 is
  the zero time) and does not decrease from one call of a component to the next. A time handed to
  the knock store may be older: any time since the step before of the same handler.
- Keys are not empty: the eviction loops use `""` for "none found" (`internal/limits/rate.go:97`,
  `internal/limits/ban.go:100`), and the keys in use are IP addresses or begin with `ip:` or `client:`.
- Connection limits are not negative; queue size, number of workers and the time a knock lasts are
  positive. A parsed rate has a positive limit.
- Iteration over a map takes any order: eviction picks any of several oldest entries, and a direct
  connection is paid for by any live client of its IP.
- The firewall is a map from IP to the end of its allow entry. Only `Allow` opens it, an entry lapses
  by itself, and a revoke may fail.
- Authentication, the nonce cache, dialing, wrapping and relaying come out either way at every step.
- `allowKnockPacket` reads the clock once, when it asks the ban tracker, hands that time to the rate
  limiter in a step of its own, and returns the limiter's answer in a third. So the limiter may be asked
  with times out of order; `ServerPackets.AdmittedWithinLimit` names the order it needs, and
  `ServerPackets.OneByOneIsInOrder` shows that it holds when packets pass the check one after the other.
- A knock carries one address, client and nonce; the nonce `""` stands for none, as in the source.
- The cipher is a pair of functions. Two laws are stated as predicates and named where they are used:
  `Correct` (opening undoes sealing) and `Ideal` (nothing opens but what was sealed under that nonce).
  ChaCha20-Poly1305 with 12-byte nonces is section 2.8 of RFC 8439; its tag is 16 bytes.
  `Frames.LawsAreConsistent` shows that the laws can be met.
- The 64-bit frame counter wraps in the model; theorems that need it not to say so.

## What turned out not to hold

- With any capacity limit the rate limiter does not keep its promise in every run: other keys can
  push a key out inside its window, and the key starts again. `RateEviction.BoundedIffUncapped` says
  that the promise holds in every run if and only if there is no capacity limit; per key it holds as
  long as that key is not evicted (`RateRuns.AtMostLimitPerWindow`).
- Five failures of a key within a minute do not always lead to a ban, because a window is fixed where
  it opened. Known before the first of them, at time t, they are sure to if and only if at t the key has
  no open window, or one that opened at t, or one that has counted four (`BanWindows.FiveBanExactly`).
  Eight always do, and seven need not. All three hold for any capacity limit as long as the key's window
  is not evicted meanwhile.
- With any capacity limit the tracker may miss any number of failures: other keys can push a key's window
  out each time it opens. That eight failures within a minute include a ban in every run holds if and only
  if there is no capacity limit (`BanEviction.CompleteIffUncapped`). The server always sets one
  (`internal/config/config.go:672`, `internal/app/server.go:304`).
- A stream that is cut off is not always told apart from one that ended: cut at the start of a frame or
  right behind the header of one it reads as `io.EOF`, like the end header, and anywhere else as an
  unexpected end (`SecureErrors.BrokenOff`).
- The clean-up in `IsBanned` after its test (`internal/limits/ban.go:41-43`) is never reached.
- Key inputs stay apart exactly for strings below 65536 bytes and 16-bit ports
  (`KeyInputs.InjectiveExactly`).
- Two metric series can share a key. A series with one label shares its key with some other series of
  plain name and labels if and only if what stands behind the first brace of the key, up to the label's
  value, spells out plain labels in order, or is one plain label where the series name itself holds a
  brace (`SeriesLabels.OneLabelExactly`); one without labels, if and only if its name is the text of a
  plain series that has labels (`SeriesLabels.NoLabelsExactly`).

## Model

| member | source | states |
|---|---|---|
| SecureReads.DeliveredIsPrefix | internal/secure/conn.go:73-85 | With an ideal cipher, for every raw stream (bytes reordered, repeated, dropped, cut off or invented, read errors in between) and every series of reads, reads after errors included, the bytes delivered are a prefix of what the peer sealed |
| SecureReads.SessionRoundTrip | internal/secure/conn.go:73-123 | For any writes, empty ones included, then the end header, and any non-empty buffer sizes: the reads return exactly the concatenated data with no empty read and no error before it is complete, then EOF, at the latest at the read after one read per byte |
| SecureReads.RoundTrip | internal/secure/conn.go:149-184 | The same for any list of chunks that fit a frame: every frame is accepted in order |
| SecureErrors.FrameErrors | internal/secure/conn.go:149-172 | For every stream, what reading a frame reports and what it has eaten determine each other: the raw error iff the last thing eaten is one; EOF iff the end header was eaten, or the stream ran out before a header or right behind one that announces a text of allowed size; an unexpected end iff it ran out anywhere else; a bad size iff exactly a header above 16400 was eaten; a failed opening iff a whole frame was eaten that does not open |
| SecureErrors.EveryErrorHasItsReason | internal/secure/conn.go:73-85 | In any series of reads of any stream, reads after errors included, what a failing read has eaten ends with the reason for its error |
| SecureErrors.BrokenOff | internal/secure/conn.go:73-172 | A session broken off at any place before the end of its end header: exactly the frames that are whole are delivered, then the raw error if one follows, EOF if the break is at the start of a frame or right behind its header, and an unexpected end anywhere else |
| SecureReads.UpToTheError | internal/secure/conn.go:73-85 | Frames that open, with anything behind them that fails to read: the reads return exactly the concatenated data and then that error, at the latest at the read after one read per byte |
| Sessions.Exchange | internal/secure/conn_test.go:10-42 | The round trip on two connection objects: if no raw write failed, what was written is read back whole and then the end, however the raw reads cut the stream |
| Sessions.Send | internal/secure/conn.go:87-123 | A series of writes that goes on after failed ones, and a close, use no nonce twice among the first 2^64 seals; if all went well on an unused connection, the wire holds the frames of all chunks and one end header |
| Sessions.Receive | internal/secure/conn.go:73-85 | A series of reads on an object is the series of reads of the specification |
| SecureReads.IdealOpen | internal/secure/conn.go:165-170 | A frame that opens under the i-th nonce is the i-th text the peer sealed, so a frame out of its place is refused |
| SecureReads.FrameOpens | internal/secure/conn.go:149-172 | A frame is accepted only by opening it under the nonce of the counter, which then moves by one; in every error case counter and buffer stay |
| SecureReads.ReadAhead | internal/secure/conn.go:73-85 | While data is left a read delivers at least one byte of it and at most its buffer, and what it delivers and what is left make up what was left before; otherwise it reports the error of what stands behind |
| SecureConns.Conn.Read | internal/secure/conn.go:73-85 | Reads frames until one is not empty, then fills the caller's array from the front and touches nothing behind it; result, error and new state are those of the specification, whose errors SecureErrors.EveryErrorHasItsReason characterises |
| SecureConns.Conn.ReadFrame | internal/secure/conn.go:149-172 | State and error after one frame are those of the specification, whose errors SecureErrors.FrameErrors characterises one by one |
| SecureConns.Conn.Write | internal/secure/conn.go:87-107 | Without an error all chunks of the input are sealed and on the wire; with one, the count returned is that of the full chunks before the failing one, which are on the wire whole, the failing one at most in part, and nothing after it was sealed; after the close nothing happens |
| SecureConns.Conn.WriteFrame | internal/secure/conn.go:174-184 | Seals under the next nonce even if the raw write then fails, and puts header and text or a beginning of them on the wire |
| SecureConns.Conn.CloseWrite | internal/secure/conn.go:113-123 | Sends the end header at most once, on a failed raw write at most a beginning of it; and until a raw write fails the wire is all frames and then the end header, so no frame follows it |
| SecureConns.ReadFullRaw | internal/secure/conn.go:151-164 | Reading a fixed number of bytes over raw reads of any size gives the bytes, or the error and the bytes lost |
| Frames.ChunksWhole | internal/secure/conn.go:94-105 | The chunks of a write make up the write, none is empty or above 16384 bytes, all but the last are full, and there are as many as the length divided by 16384, rounded up |
| Frames.NoncesDistinct | internal/secure/conn.go:198-202 | The nonces of the first n seals are pairwise distinct if and only if n is at most 2^64 |
| Frames.NonceReadsBack | internal/secure/conn.go:198-202 | The first four bytes are zero and the last eight read back, big-endian, as the counter modulo 2^64 |
| Frames.DataHeader | internal/secure/conn.go:174-184 | The header of a data frame is never the end header, reads back as the length of the text, and is never above the largest frame |
| Frames.LawsAreConsistent | internal/secure/conn.go:42-47 | For any texts sealed some cipher is both correct and ideal |
| KeyInputs.MacInputInjective | internal/secure/conn.go:186-209 | The input of the key determines client, nonce, port and direction |
| KeyInputs.InjectiveExactly | internal/secure/conn.go:186-209 | It does so for all strings below a length and all ports below a number if and only if both bounds are at most 65536 |
| KeyInputs.RolesMatch | internal/secure/conn.go:49-71 | For all strings and ports, client and server of a session each write with what the other reads with, and neither with one key both ways |
| ServerGate.EveryDialRestsOnAKnock | internal/app/server.go:334-547 | In every interleaving, every upstream dial rests on an access check at some time t and a knock from that IP accepted at some k with k <= t < k + ttl; by the store it was the same client's knock, by the firewall a knock that opened it |
| ServerDuties.EveryDialUsesItsKnock | internal/app/server.go:447-547 | In every run, if knocks are to be removed after authentication, and always in direct mode, every dial has before it exactly one call of its handler on the knock store for a credit of that address and client, and an attempt to close the firewall iff that was the last credit and it is to be closed; otherwise there was no such call |
| ServerLedgers.DialsWithinCredits | internal/app/server.go:447-547 | In either mode, the connections that dialed for a client at an address after taking a live credit of it are no more than the credits its knocks from there were entered for |
| ServerLedgers.CreditsAreLedger | internal/app/state.go:23-139 | In every run what handlers took for a client at an address and what the store still holds are within what its knocks have put in |
| ServerLedgers.FirewallIsLedger | internal/app/server.go:352-585 | In every run the firewall is exactly what the openings and successful revocations in the log leave of it |
| ServerLedgers.RevocationCloses | internal/app/server.go:451-584 | A successful revocation closes the address, until a knock opens it again |
| ServerDuties.EveryFailureIsRecorded | internal/app/server.go:409-574 | In every run a handler whose authentication, client ban check, look-up, access check or wrap failed has, when it gives back its slot, recorded since then exactly one failure under `ip:` and its own address, and, if it was authenticated, exactly one under `client:` and that client |
| ServerDuties.EveryFailureCleansUp | internal/app/server.go:578-592 | If knocks are to be removed after authentication, it has also asked the firewall to close its address and dropped that client's credit there, or all of the address if nobody was authenticated |
| ServerDuties.NoFailureWithoutFault | internal/app/server.go:389-497 | A handler that leaves without such a failure has recorded none |
| ServerDuties.EveryRelayIsLinked | internal/app/server.go:458-486 | Every relay follows a dial of its handler that succeeded and, with an encrypted transport outside direct mode, a wrap that succeeded |
| ServerOutcomes.EveryHandlerHasOneOutcome | internal/app/server.go:389-547 | A handler at its end has had exactly one of these: a relay, one of these failures, a banned address, no slot for its address or its client, no credit, or a dial that failed; so whoever passes everything is relayed, once |
| ServerFailures.EightFailedHandlersBan | internal/app/server.go:556-574 | End to end: eight handlers of one address that failed and left, what they recorded for it lying within a minute in which its window is not evicted, leave the address banned within that minute |
| ServerCalls.TrackerRunIsRun | internal/limits/ban.go:29-76 | The calls and answers in the log of any run of the server are a run of the ban tracker that ends in the server's tracker |
| ServerCourses.EveryGrantIsEarned | internal/app/server.go:334-369 | In every run what a knock enters in the store is for its own address and client, one time to live, and the connections one knock is good for, and has before it, in this order, the passed ban check of that client, the acceptance of its nonce if it has one, and the opening of the firewall for that address |
| ServerCourses.EveryOpeningIsEarned | internal/app/server.go:334-362 | Every opening is for its knock's address, and has before it that ban check and that nonce |
| ServerCourses.RefusedNonceOpensNothing | internal/app/server.go:344-349 | A knock whose nonce was refused never opens the firewall and never gets into the store |
| ServerCourses.EveryTimerIsDue | internal/app/server.go:378-386 | A knock's timer asks the store no earlier than one time to live after the knock was entered, and has the firewall closed only if the entry had run out |
| ServerCourses.EveryKnockHasOneEnd | internal/app/server.go:334-387 | A knock that is done was refused, or could not open, having opened and stored nothing more; or it was stored, and its timer closed the firewall iff it found the entry run out |
| ServerPackets.EveryAdmissionWasRated | internal/app/server.go:310-325 | A packet is admitted only after its own ban check was passed and its own call on the limiter, with the same address and time, said yes |
| ServerPackets.EveryPacketHasOneEnd | internal/app/server.go:310-325 | A packet that is done was stopped by its ban check, or refused by the limiter, or let through by both and admitted |
| ServerPackets.AdmittedWithinLimit | internal/app/server.go:310-325 | End to end, when the limiter is asked in the order of the packets' times: as long as an address is not evicted, any interval one window long holds at most the limit of its admitted packets |
| ServerPackets.OneByOneIsInOrder | internal/app/server.go:310-325 | It is asked in that order whenever at most one packet at a time is between its ban check and the limiter |
| ServerGate.StepKeepsGate | internal/app/server.go:352-533 | The invariant behind it: every store entry and every firewall entry was put there by a knock one time to live before its end, and every handler past its check is justified |
| ServerBans.NoCheckPassedInBan | internal/app/server.go:310-574 | From the moment a key is banned until the ban runs out nobody passes a check of it: no packet and no handler of a banned IP, no knock and no handler of a banned client, whatever else goes on |
| ServerBans.BannedPacketsRefused | internal/app/server.go:310-325 | A packet of a banned IP is admitted only if its own ban check came before the ban or after its end, calls in flight included; what it needs besides is ServerPackets.EveryAdmissionWasRated |
| ServerBans.BannedKnocksRefused | internal/app/server.go:334-369 | A knock of a banned client is accepted only if its own ban check came before the ban or after its end; what it needs besides is ServerCourses.EveryGrantIsEarned |
| ServerBans.BannedHandlersDoNotDial | internal/app/server.go:389-474 | A handler dials for a banned IP, or for a banned client, only if its own check of the IP, or of the client, came before the ban or after its end |
| ServerOrder.HandlersBegunInBanDoNotDial | internal/app/server.go:126-135 | A handler that starts after its IP or its client was banned does not dial until the ban is over |
| ServerOrder.PacketsBegunInBanRefused | internal/app/server.go:310-325 | A packet that comes in after its IP was banned is not admitted until the ban is over |
| ServerOrder.KnocksBegunInBanRefused | internal/app/server.go:334-343 | A knock taken up after its client was banned is not accepted until the ban is over |
| ServerOrder.StepKeepsTraced | internal/app/server.go:310-497 | Every step keeps it that each check is passed by who had begun before, and not in the future |
| ServerBans.DirectModeNeverBans | internal/app/server.go:409-412 | In direct mode nobody is ever banned, since no failure is recorded |
| ServerBans.StepKeepsSafe | internal/app/server.go:310-574 | Every step keeps every running ban of an IP or a client in the tracker in full, adds to history only what respects it, and lets act only who stands behind the checks it needs; that the failures are recorded, and for whom, is ServerDuties.EveryFailureIsRecorded |
| ServerPipeline.SlotsConserved | internal/app/server.go:389-497 | In every interleaving the global counter is the number of handlers that hold an IP slot and the sum over IPs, the client counters add up to the handlers that hold a client slot, each counter is the number of its holders, there are counters for exactly the IPs and clients that hold a slot, client slots never outnumber IP slots, and neither the global limit, nor the limit per IP, nor the limit per client, nor a client's own limit is exceeded |
| ServerPipeline.EmptyWhenIdle | internal/limits/connections.go:45-83 | In every reachable state in which no handler holds a slot all counters are zero and both maps are empty |
| ServerPipeline.GlobalWithinWorkers | internal/app/server.go:125-135 | Never more connections hold a slot than there are workers |
| ServerPipeline.InOnePlace | internal/app/server.go:123-173 | Every accepted connection is with the accept loop, once in the queue, with exactly one worker, or closed, and queue and workers keep to their sizes |
| ServerPipeline.HandledAtMostOnce | internal/app/server.go:126-135 | No connection is handed to a worker twice, no knock or packet is taken up twice, and no ban check of a handler, a knock or a packet is passed twice |
| ServerPipeline.ClosedOnlyWhenFull | internal/app/server.go:162-171 | The accept loop lets go of a connection by queueing it, while the queue has room, or by closing it, and that only when the queue is full or the server is cancelled |
| ServerMarks.StepKeepsOnce | internal/app/server.go:310-574 | Every step keeps this, because nobody goes back before the point at which it is marked |
| ServerPipeline.AllClosedAtTheEnd | internal/app/server.go:136-139 | When the loop has returned and all workers have stopped, every connection ever accepted is closed and all slot counters and maps are empty |
| ServerPipeline.StepKeepsTidy | internal/app/server.go:123-173 | Every step keeps the places, the at-most-once marks and the slot counts |
| ServerCredits.DialsWithinKnocks | internal/app/server.go:519-547 | In direct mode the connections forwarded for an IP are at most max(1, connections per knock) times the knocks accepted from it |
| ServerCredits.StepKeepsFair | internal/app/server.go:364-369 | Every step keeps, for every IP, paid plus still owed within what the knocks were worth, and dials plus handlers about to dial within what was paid |
| ServerSlots.SlotMoves | internal/app/server.go:404-465 | What a handler's step does to the slots it holds is what it does to the counters, on every exit path |
| BanRuns.BanPersists | internal/limits/ban.go:29-118 | Once a failure at t is answered with a ban, every question about that key before t + ttl is answered with yes, for any capacity limit and any calls in between |
| BanRuns.BannedExactly | internal/limits/ban.go:29-69 | A question is answered with yes if and only if an earlier failure of that key was answered with a ban that still runs |
| BanRuns.BanSoundness | internal/limits/ban.go:46-69 | Whoever is banned had a fifth failure recorded less than one ttl ago, five since its window opened, all within one minute, none of the four before it a ban; with eviction and pruning |
| BanWindows.FiveBanExactly | internal/limits/ban.go:46-69 | For any capacity limit and after any run: that five failures of a key from t to one minute after t include a ban, in every continuation that does not evict its window, holds if and only if at t the key has no open window, or one opened at t, or one that has counted four |
| BanWindows.EightFailuresBan | internal/limits/ban.go:46-69 | For any capacity limit, eight failures of a key within one minute during which its window is not evicted include one that bans, whatever other calls stand in between |
| BanWindows.SevenFailuresNeedNotBan | internal/limits/ban.go:46-69 | Eight is tight, for any capacity limit: a run with seven failures within a minute, no other key and no ban |
| BanWindows.BluntNeedNotBan | internal/limits/ban.go:55-59 | After any run that leaves a window opened earlier with one to three failures, five failures within a minute can go without a ban |
| BanEviction.CompleteIffUncapped | internal/limits/ban.go:91-118 | That any eight failures of a key within a minute include a ban in every run holds if and only if there is no capacity limit |
| BanKeys.AnswersOfOwnCalls | internal/limits/ban.go:29-89 | Without a capacity limit, whatever else is called, the answers a key gets are those of a run of its own calls alone, and there is such a run |
| BanKeys.NonInterference | internal/limits/ban.go:29-89 | They are those of every such run, and the key's window and ban look alike at every later time |
| BanKeys.RunExists | internal/limits/ban.go:29-118 | A tracker without a capacity limit has a run for any calls at positive times that do not run backwards |
| BanKeys.OwnCall | internal/limits/ban.go:46-69 | What a call does to a key and what it answers depends only on that key's open window and running ban |
| Bans.OneOverKeepsBans | internal/limits/ban.go:91-118 | If one entry at most must go and some window is older than every ban, no ban goes |
| Bans.TrimmingKeepsBans | internal/limits/ban.go:61-68 | Enforcing the limit after a failure never costs a ban its place; after a ban it drops nothing |
| Bans.RecordedSize | internal/limits/ban.go:55-65 | A failure that bans never makes the tracker larger |
| Bans.StepKeepsInv | internal/limits/ban.go:29-89 | Windows open in the past with one to four failures, bans end in the future and at most one ttl ahead, the capacity limit holds |
| Bans.BanningStep | internal/limits/ban.go:61-66 | A failure answered with yes leaves a ban of exactly one ttl and no window |
| BanTrackers.BanTracker.constructor | internal/limits/ban.go:25-27 | An empty tracker with the given ttl and limit |
| BanTrackers.BanTracker.IsBanned | internal/limits/ban.go:29-44 | One question: prunes, and answers whether a ban of the key runs |
| BanTrackers.BanTracker.RecordFailure | internal/limits/ban.go:46-69 | One failure: prune, count or open the window, ban at the fifth, enforce the limit |
| BanTrackers.BanTracker.Count | internal/limits/ban.go:71-76 | Prunes and counts the bans that run |
| BanTrackers.BanTracker.PruneLocked | internal/limits/ban.go:78-89 | Leaves exactly the bans that run and the windows at most a minute old |
| BanTrackers.BanTracker.Oldest | internal/limits/ban.go:96-108 | Finds an entry of either map whose stamp is least, none only if there is none |
| BanTrackers.BanTracker.EnforceLimitLocked | internal/limits/ban.go:91-118 | Drops just enough entries, and none dropped is newer than one kept |
| RateRuns.AllowsExactly | internal/limits/rate.go:49-73 | Allow says yes exactly when fewer than the limit of that key's accepted events since it was last evicted lie after now - window |
| RateRuns.AtMostLimitPerWindow | internal/limits/rate.go:49-91 | As long as a key is not evicted, any interval one window long holds at most the limit of its accepted events, wherever it ends and in every run |
| RateRuns.ShapeAlways | internal/limits/rate.go:49-105 | After every call both maps have the same keys, every list is non-empty, ordered and at most the limit long, the time last seen is its last element, and the capacity limit holds |
| RateEviction.BoundedIffUncapped | internal/limits/rate.go:69-71 | That every key keeps to the limit in every interval of every run holds if and only if there is no capacity limit |
| RateKeys.AnswersOfOwnCalls | internal/limits/rate.go:49-91 | Without a capacity limit, whatever else is called and although every call prunes all keys, the answers a key gets are those of a run of its own calls alone, and there is such a run |
| RateKeys.NonInterference | internal/limits/rate.go:49-91 | They are those of every such run, with the same history of accepted events |
| RateKeys.RunExists | internal/limits/rate.go:49-73 | A limiter without a capacity limit has a run for any calls whose times do not run backwards |
| RateKeys.AnswerByHistory | internal/limits/rate.go:49-73 | Without a capacity limit an answer is a matter of the key's full history of accepted events |
| Rates.StepShape | internal/limits/rate.go:49-105 | One call keeps the shape of the limiter |
| Rates.AfterAfter | internal/limits/rate.go:53-61 | Dropping what is out of an earlier window first makes no difference to a later one |
| RateLimiters.Compact | internal/limits/rate.go:77-82 | Compacting a slice over its own backing array gives the filtered list |
| RateLimiters.Append | internal/limits/rate.go:66 | Appending writes into spare room of the array or into a copy, and gives the list and the new time |
| RateLimiters.RateLimiter.constructor | internal/limits/rate.go:22-31 | An empty limiter |
| RateLimiters.RateLimiter.Allow | internal/limits/rate.go:49-73 | One call, with in-place compaction over per-key arrays, makes one step of the specification and keeps the arrays of different keys apart |
| RateLimiters.RateLimiter.PruneLocked | internal/limits/rate.go:75-91 | Leaves every key with exactly its times after the cutoff and drops keys with none |
| RateLimiters.RateLimiter.EvictOldestLocked | internal/limits/rate.go:93-105 | Forgets one key, and no key was last accepted before it |
| KnockCredits.CreditsConserved | internal/app/state.go:23-139 | In every reachable state, for every client of every IP, granted = outstanding + consumed + discarded, and every stored count is at least one |
| KnockCredits.NeverOverdrawn | internal/app/state.go:62-139 | Nobody is let in on more credits than were granted |
| KnockCredits.StepBalances | internal/app/state.go:23-139 | Every call balances for every client of every IP |
| KnockCredits.StepOwes | internal/app/state.go:115-139 | Per IP nothing but a knock raises what is owed, and every direct connection lowers it by one |
| Knocks.HousekeepingKeepsLive | internal/app/state.go:39-104 | Looking up and expiry timers leave the live view as it is for every IP and client; a look-up answers whether the knock is live, a timer whether it dropped an entry that had run out |
| Knocks.AddAddsCredits | internal/app/state.go:23-37 | After a knock its client's entry holds what it held before plus max(1, count) and ends one time to live later; nobody else's changes |
| Knocks.PruneKeepsLive | internal/app/state.go:141-148 | Pruning an IP leaves the live view as it is |
| Knocks.StaleTimer | internal/app/state_test.go:9-26 | A timer that fires for an earlier knock never drops the refreshed one |
| Knocks.RemoveOneTakesOne | internal/app/state.go:62-85 | Removing one takes one live credit of that client and nothing else, and says yes exactly when it was the last |
| Knocks.ConsumeAnyTakesOne | internal/app/state.go:115-139 | Succeeds exactly when a client of the IP is live, takes one credit of one of them, and asks for the firewall to be closed exactly when no live client of that IP remains, in any map order |
| KnockStores.KnockStore.Add | internal/app/state.go:23-37 | Adds at least one credit to what the entry had, run out or not, and renews its end |
| KnockStores.KnockStore.Has | internal/app/state.go:39-60 | Answers whether the entry is live and drops it if it has run out |
| KnockStores.KnockStore.RemoveOne | internal/app/state.go:62-85 | Prunes the IP, takes one credit, and tells whether the entry went with it |
| KnockStores.KnockStore.Expire | internal/app/state.go:87-104 | Drops the entry if it has run out and tells whether it did |
| KnockStores.KnockStore.RemoveIP | internal/app/state.go:106-113 | Drops the IP and tells how many clients it had |
| KnockStores.KnockStore.ConsumeAny | internal/app/state.go:115-139 | Prunes the IP and takes one credit of any client left |
| KnockStores.KnockStore.PruneIPLocked | internal/app/state.go:141-148 | Leaves exactly the entries that have not run out |
| ConnectionSlots.Connections.AcquireIP | internal/limits/connections.go:30-43 | Refuses iff the global limit or the limit per IP is set and reached, changing nothing; otherwise one more for the IP and in all |
| ConnectionSlots.Connections.ReleaseIP | internal/limits/connections.go:45-57 | One less, never below zero, and no entry left at zero |
| ConnectionSlots.Connections.AcquireClient | internal/limits/connections.go:59-72 | With a limit for all clients that is not negative, refuses iff that or the client's own is set and reached; otherwise one more for the client |
| ConnectionSlots.Connections.ReleaseClient | internal/limits/connections.go:74-83 | One less, and no entry left at zero |
| ConnectionSlots.RefusedExactly | internal/limits/connections.go:34-69 | An IP slot is refused iff the global or the per-IP limit is set and reached; a client slot iff the limit for all clients or that client's own is set and reached, where a negative limit for all switches both off |
| ConnectionSlots.TakeCounts | internal/limits/connections.go:30-72 | Taking a slot keeps the counters equal to the bag of slots held |
| ConnectionSlots.FreeCounts | internal/limits/connections.go:45-83 | Giving back a slot that is held keeps them equal |
| ConnectionSlots.GlobalIsSum | internal/limits/connections.go:40-41 | Counters that count a bag add up to its size |
| SeriesKeys.KeyInjective | internal/metrics/metrics.go:93-107 | The key determines the name and every label, for series names without `{` and label names without `="` |
| SeriesKeys.EscapeIsOnePass | internal/metrics/metrics.go:109-113 | Three passes do what one pass does |
| SeriesKeys.EscapeInverse | internal/metrics/metrics.go:109-113 | The escaper has an inverse that accepts nothing but what it writes |
| SeriesKeys.BraceCollides | internal/metrics/metrics.go:93-107 | Every series name with a brace shares a key with another series |
| SeriesKeys.LabelCollides | internal/metrics/metrics.go:102-106 | Every label name that spells out another label shares a key with the two labels it spells |
| SeriesLabels.OneLabelExactly | internal/metrics/metrics.go:93-107 | For every series with one label, whether another series of plain name and labels has its key: exactly if what stands behind the first brace spells out plain labels, or is one plain label where the series name holds a brace |
| SeriesLabels.NoLabelsExactly | internal/metrics/metrics.go:94-96 | For every series without labels: exactly if its name is the text of a plain series that has labels |
| SeriesLabels.BraceExactly | internal/metrics/metrics.go:93-107 | A series name is cut at its first brace, and what follows it is read as part of the label's name, whatever the value |
| SeriesLabels.AmbiguousExactly | internal/metrics/metrics.go:93-107 | For a plain series name: exactly if the label's name is the text of plain labels in order, a comma and a further plain name |
| Registries.MakeKey | internal/metrics/metrics.go:93-107 | Collecting the label names in any order, sorting them and joining the parts gives the key |
| Registries.SortStrings | internal/metrics/metrics.go:101 | The same strings in ascending order |
| Registries.OneSeries | internal/metrics/metrics.go:32-48 | Writing a series changes the reading of that series and of no other plain one |
| Registries.Registry.Add | internal/metrics/metrics.go:32-36 | Adds to that counter, from zero if it was not there; every other plain counter reads as before |
| Registries.Registry.Set | internal/metrics/metrics.go:38-42 | Sets that gauge; every other plain gauge reads as before |
| Registries.Registry.AddGauge | internal/metrics/metrics.go:44-48 | Adds to that gauge; every other plain gauge reads as before |

## Left out

- Servers.Step: the handlers, timers, accept loop and workers are one step system on values, not methods on objects, because they interleave; each call they make on shared state is the step that the corresponding class method is proved to make.
- BanTrackers.BanTracker.RecordFailure: says nothing of the key `""`, which the eviction loop takes for "none found".
- RateLimiters.RateLimiter.Allow: the same; and a full array gives way to one of about twice its size, where the runtime's growth factor may differ.
- SecureConns.Conn.Write: after a raw write has failed, the bytes that later writes put on the wire are described for that write alone, since the peer can no longer read them.
- SeriesLabels.OneLabelExactly: is about series with one label; which sets of several labels with names that are not plain are ambiguous is not characterised.
- ServerPackets.AdmittedWithinLimit: speaks of addresses that were never evicted; what evictions do is in `RateEviction`.
- Clocks that run backwards, also in the times that goroutines read before they wait for a lock of the ban tracker.
- The cryptography itself: the cipher and the keyed hash stay abstract.
- The knock protocol, the authentication envelope, the relay and the firewall backends (libknock is not part of this model); they enter as outcomes.
- What the nonce cache remembers: a nonce is accepted or refused at every knock.
- Configuration files, defaults and `ParseRate`; command line, status and doctor output; logging.
- Serving and formatting metrics; which metrics the server writes, among them the gauge of active allow entries, which a refreshed knock raises again (`internal/app/server.go:376`).
- Deadlines, addresses and `CloseRead` of the encrypted connection, which forward to the raw connection.
- Rounding of metric values: they are real numbers here.
- Liveness: that a queued connection is taken in the end, or that a terminated run is reached.
