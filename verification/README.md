# A verified model of the forward proxy

The proxy is one epoll thread, a task queue and a pool of workers, serving HTTP/1.1 requests
through a sharded LRU cache. This project models the three parts its correctness rests on and
proves what they promise: the life of a connection across threads, the framing of byte streams
that arrive in arbitrary pieces, and the cache together with what `serve_one_request` does with it.

Modules, bottom up:

- `Text`, `Net`: byte strings, the C and C++ library calls made on them (`find`, `getline`,
  `tolower`, `strtol`, `atoi`, `to_string`), and the results of `recv`.
- `Head`, `HttpRequest`, `HttpResponse`, `Chunked`: finding the end of a head, reading requests and
  responses, `build_response`, and the chunked-body walk (section 7.1 of RFC 9112).
- `Printing`, `OddMessages`: the partners of both parsers; what printed messages mean once parsed, and
  what becomes of those that are not as they should be.
- `ClientStream`, `Upstream`, `Sender`: the loops of `handle_ready`, `fetch_upstream` and `send_all`
  over scripts of socket results. `Cuts`: what is decided at the front of a client stream, and when
  that is independent of the cut; `Splits`: the same of a whole exchange with the origin. `Pipeline`
  and `Fetching`: whole connections of printed requests, whole exchanges of printed responses.
  `LfLines`, `BareLf` and `LfResponse`: the streams on which cuts do matter.
- `Lru`, `LruList`, `Words`, `Sharded`: exact LRU on a recency sequence; the linked list and index
  that implement it; 64-bit words, the shard mixer and the power-of-two rounding; the sharded cache.
- `TaskQueue`: the queue's critical sections, and every interleaving of producers, workers and stopper.
- `ConnMachine`: every interleaving of accept, event delivery, queueing, workers, re-arming and
  closing, over a kernel interest set and a table of reusable descriptor numbers; `ConnHistory`: what
  every run leaves behind; `ConnProgress`: left
  to itself the program comes to rest, on every schedule, with every connection waiting for the network.
- `Acl`, `AclMeaning`, `CacheKey`, `Serve`: wildcard patterns, access rules, routes and the configuration
  loader, and what they mean apart from the scans that carry them out;
  the cache key; and the request handler run by many workers at once, with its cache, counters and log.
  `Replies`: what clients get, and how much of each. `SharedKey`: what becomes of two requests with one key.

Where the source loops over changing state there is a method or a class, proved equal to a
specification function; the properties are lemmas about that function. Where several threads
share state there is a step relation, one step for each lock-protected section, atomic access or
kernel call, and an invariant kept by every step and hence by every run.

Assumptions about the platform: `size_t` and `long` have 64 bits, a byte is a `char`, case folding
is ASCII. The kernel delivers an event only for an armed, ready descriptor and disarms it; ADD and
MOD look at readiness afresh; nothing is reported after DEL; a closed number may be reused at once.

Findings. Six promises do not hold on every input; for each there is a failing input and the exact
condition.

- The treatment of a request should not depend on how TCP cuts the stream. `find_header_end` prefers
  any CRLFCRLF in the buffer to an earlier LFLF, so a head ended by bare LFs can be taken to reach
  into what follows it. `Cuts.CutAgnosticIff` says exactly when the decision at the front of a stream
  is independent of the cut, and `BareLf.BareLfEventsDependOnCut` and `BareLf.TwoGets` give streams of
  two ordinary GETs that are two requests in two pieces and one request in one. Above the payload
  limit it depends on the cut too: requests drained together are refused by one 413 before any of
  them is looked at, and served when they come one by one (`Pipeline.BurstRefusedPiecesServed`,
  `Pipeline.TwoGetsTooLarge`). `ClientStream.SegmentationIndependentIff` says, for every stream and
  limit, exactly when all deliveries give one sequence of events. `Head.CutIndependentIffUnambiguous`
  and `Head.FinalIffCrlf` are the same questions about the end of the head alone.
- Nor should the answer of an origin. The same preference makes `fetch_upstream` take a bare-LF head
  to reach into a body that holds CRLFCRLF: `LfResponse.LfResponseDependsOnCut` and
  `LfResponse.FourBytes` give responses that are fetched in two pieces and run into the timeout in
  one. `Splits.SameAtEverySplitIff` says, for all bytes, limits and ends, exactly when every split
  gives one outcome.
- Different resources should have different cache keys. The key runs folded host and path together, so
  two received requests can share one when a host holds a slash (`CacheKey.KeyCollision`), and also,
  with no slash in either host, when a target does not start with one
  (`CacheKey.KeyCollisionWithoutSlash`). `CacheKey.KeyCrossesIff` says of every received request
  exactly when its key is that of an ordinary request for another resource, `SharedKey.SharedKeyHits`
  that a shared key always is a shared answer on some run, and `SharedKey.HitAcrossHosts` is such a run.
- A response that forbids caching should not be kept. Of several Cache-Control fields only the last is
  looked at: `Printing.ForbiddenYetCacheable` says exactly when a forbidden response is kept all the
  same, and `Printing.NoStoreOverruled` is one.
- `round_up_pow2` should end. It does exactly for requests up to 2^63 (`Words.RoundUpEndsIff`); from
  2^63 + 1 on it loops for ever.
- A bare `get` does not insert on a miss and can break LRU inclusion. `Lru.InclusionIff` says of every
  trace exactly when it does, and `Lru.BareGetBreaks` is a trace of three operations on which it does.

A response cut short by end of file is accepted as it is (`Upstream.TruncationAccepted`).

## Model

| member | source | states |
|---|---|---|
| Text.FoldsLetters | http.hpp:24-28 | the letters of the alphabet are folded, and no other byte |
| AclMeaning.TrimAround | http.hpp:30-35 | blanks around a text are trimmed, and nothing else |
| Head.HeaderEndOfPrefix | http.hpp:79-85 | on an unambiguous stream every prefix sees either the final end of head or none |
| Head.CutIndependentIffUnambiguous | http.hpp:79-85 | the end of head, taken by itself, is independent of where the stream is cut if and only if no LFLF ends before the first CRLFCRLF |
| Head.BareLfHeadDependsOnCut | http.hpp:79-85 | the end of head of `\n\n` moves from 2 to 6 when `\r\n\r\n` arrives |
| Head.FinalIffCrlf | http.hpp:79-85 | a found end of head survives every continuation if and only if the buffer holds a CRLFCRLF |
| Head.ScanFields | http.hpp:130-144 | the getline loop over field lines computes the specified header map, folding repeats for requests and overwriting for responses |
| Head.JunkSkipped | http.hpp:130-144 | a field line without colon or name is skipped wherever it stands, and the first empty line ends the fields |
| Head.BlockFound | http.hpp:79-85 | a printed head of CRLF lines is found whole, whatever follows it, and is unambiguous |
| HttpRequest.Parse | http.hpp:87-189 | the streaming parser computes the specified request for every input, with every error outcome |
| HttpRequest.ParseDependsOnHeadOnly | http.hpp:87-189 | bytes after the head never influence the parse |
| HttpRequest.PrintParse | http.hpp:87-189 | printing a well-formed head and parsing it recovers method, target, version, header size and, for every name, its values joined by comma in order (section 5.3 of RFC 9110), whatever follows |
| HttpRequest.SpellingsAgree | http.hpp:146-163 | absolute-form and origin-form of one resource give the same host and path (section 3.2.2 of RFC 9112) |
| OddMessages.PersistenceIff | http.hpp:172-178 | a printed request keeps the connection exactly when no Connection value says close and one says keep-alive or the version is HTTP/1.1 |
| OddMessages.BareAuthority | http.hpp:146-158 | an absolute target without a path names the root of its host |
| OddMessages.BadLines | http.hpp:105-128 | a request line is refused for fewer than two spaces, an empty method or target, or a version that does not begin with HTTP/, and for nothing else |
| OddMessages.LineRefused | http.hpp:105-128 | a head with such a line is refused for it, whatever its fields |
| OddMessages.HostRequired | http.hpp:180-186 | a request that names no host is refused |
| OddMessages.RequestLength | http.hpp:165-170 | a Content-Length that is no number, is negative or overflows counts for none |
| OddMessages.ResponseLength | http.hpp:245-256 | the same for a response, where an overflow saturates |
| OddMessages.StatusLines | http.hpp:226-234 | the status is read with a reason phrase, without one, and as 0 when there is no space |
| OddMessages.StatusDecides | http.hpp:226-234 | a response head is good exactly when its status lies in 100 to 599 |
| Printing.PersistentByDefault | http.hpp:172-178 | without a Connection field a connection persists exactly for HTTP/1.1 |
| Printing.CloseCloses | http.hpp:139-178 | a Connection field saying close in any letter case and any repetition ends the connection |
| Printing.ResponsePrintParse | http.hpp:215-260 | printing a response head and parsing it recovers the status and the last value of every field, whatever follows |
| Printing.CacheableAsPrinted | http.hpp:322-334 | which printed responses are cacheable, by method, status and fields: no Set-Cookie, and the last Cache-Control forbids nothing |
| Printing.ForbiddenYetCacheable | http.hpp:237-244 | a response one of whose Cache-Control fields forbids caching is cacheable all the same exactly when a later one, the last, forbids nothing |
| Printing.NoStoreOverruled | http.hpp:237-244 | such a response, its first Cache-Control saying no-store |
| Printing.FramingRules | http.hpp:245-256 | chunked before Content-Length before end of file (section 6.3 of RFC 9112), by the last value of each field |
| HttpResponse.Parse | http.hpp:215-260 | the streaming response parser computes the specified response for every input |
| HttpResponse.SameResponse | http.hpp:215-260 | bytes after an LFLF are no part of the response head, however far the head is taken to reach |
| HttpResponse.EarlyParse | http.hpp:215-260 | on any stream at all a head found early is read as the head of the whole; only its size can differ |
| HttpResponse.StatusStable | http.hpp:215-260 | the status read from the first head seen is never changed by later bytes, even on an ambiguous stream |
| HttpResponse.CompleteStays | http.hpp:313-319 | a complete message stays complete when bytes are added |
| HttpResponse.BuiltRoundTrip | server_phase5.cpp:219-228 | build_response output parses back to its status, its three fields and its body; of all its prefixes exactly the whole is complete |
| Chunked.PeakBelow | http.hpp:280-292 | on any text at all the last and largest value of the size accumulator is below 2^45 |
| Chunked.ReadSize | http.hpp:276-292 | the digit loop in 64-bit arithmetic computes the specified size, and its accumulator ends at the specified peak, below 2^45 |
| Chunked.SizeByPosition | http.hpp:274-292 | a chunk size is the value of its hexadecimal digits by position, in either letter case, and there is one exactly for at least one digit, blanks aside, and at most 2^40 |
| Chunked.BodyComplete | http.hpp:267-308 | the offset-based walk terminates and decides completeness of the body for every input |
| Chunked.EncodingComplete | http.hpp:262-308 | every encoding of chunks with arbitrary data, extensions and trailers is complete, whatever follows |
| Chunked.PrefixIncomplete | http.hpp:262-308 | no proper prefix of an encoding is complete, even with terminator bytes inside the data |
| Chunked.CompleteIffEncoding | http.hpp:262-308 | the walk accepts exactly the byte strings that begin with an encoding |
| Chunked.CompleteStays | http.hpp:262-308 | on any input at all a finished body stays finished when bytes are added |
| Chunked.StandardChunk | http.hpp:274-292 | every size from 1 to 2^40 in hexadecimal with any extension gives a valid chunk |
| Cuts.CutAgnosticIff | server_phase5.cpp:460-496 | for every stream and limit: on each prefix the decision is to wait or that of the whole stream, if and only if no head ends, or the head is within the limit and unambiguous, or an LFLF ends it first, within the limit, and it is refused anyway or declares a body reaching to the end of the CRLFCRLF |
| Cuts.SameRequest | http.hpp:87-189 | bytes after an LFLF are no part of the request, however far the head is taken to reach |
| Cuts.ServedOnceThere | server_phase5.cpp:460-496 | under that condition a request is served as soon as its last byte is there |
| ClientStream.ServePrefix | server_phase5.cpp:460-513 | on a stream that meets the condition at each of its requests, serving a prefix and then the rest is serving the whole |
| ClientStream.ServeConserves | server_phase5.cpp:460-513 | forwarded bytes followed by the rest are the buffer, and the rest of an open connection holds no complete request |
| ClientStream.Conn.Drain | server_phase5.cpp:436-457 | the drain loop computes the specified outcome for every script: buffer, rest, end of file, error or the 413 limit |
| ClientStream.Conn.ServeBuffered | server_phase5.cpp:460-513 | the serve loop performs exactly the specified walk of the buffer |
| ClientStream.Conn.HandleReady | server_phase5.cpp:431-523 | a wake-up computes the specified events, buffer, rest and re-arm decision for every script |
| ClientStream.HandlePromises | server_phase5.cpp:431-523 | every wake-up: received bytes are forwarded or buffered in order; a re-armed buffer holds no complete request; on a stream that meets the condition, within the payload limit and without socket errors, the events continue those of the whole stream |
| ClientStream.DrainedBeforeRearm | server_phase5.cpp:510-522 | before a connection is re-armed, from where the rounds that served its events arrive, one more round reads until the kernel has nothing more, finds nothing to serve, and leaves exactly the outcome |
| ClientStream.OneRoundFallsShort | server_phase5.cpp:510-522 | a handler that re-armed after its first round would break that whenever it had served something and left something unread |
| ClientStream.DrainEnds | server_phase5.cpp:436-457 | for every script, how the drain ends is what its last result calls for, all others having brought bytes or nothing, and the buffer holds all that came |
| ClientStream.ResetCloses | server_phase5.cpp:431-523 | a wake-up that meets a reset or end of file closes the connection; one that re-arms it has last found the kernel empty |
| ClientStream.RefusedOnce | server_phase5.cpp:460-496 | in any pieces and wake-ups, a stream without a head waits or is one 431, by the limit alone, and a bad head is one 400, whatever follows |
| ClientStream.SegmentationIndependent | server_phase5.cpp:431-523 | on such a stream, over any recv pieces and any wake-ups, the events of a connection are those of serving the received bytes at once |
| ClientStream.SegmentationIndependentIff | server_phase5.cpp:431-523 | for every stream, limits and answers: all deliveries, in recv pieces of at most 16384 bytes over any wake-ups without a socket error, give the same events if and only if, within the payload limit, the stream meets the condition at each of its requests, or, above it, nothing is decided on any prefix that fits |
| ClientStream.ConnectionConserves | server_phase5.cpp:431-523 | on any stream at all the bytes served are a prefix of the bytes received |
| ClientStream.ServeConnection | server_phase5.cpp:431-523 | the connection object driven to its end yields the specified events |
| Pipeline.FirstMessage | http.hpp:87-195 | a printed request with a declared body, followed by anything, is served first with exactly its own bytes |
| Pipeline.ServePipelined | server_phase5.cpp:460-513 | requests printed one after another are told apart, up to the first that closes the connection |
| Pipeline.AnyPieces | server_phase5.cpp:431-523 | pipelined requests in any pieces and wake-ups are served in order, each with exactly the bytes printed for it |
| Pipeline.BurstRefusedPiecesServed | server_phase5.cpp:436-457 | printed requests that fit the buffer one by one but not together: in one burst a 413 alone, one by one all served |
| Pipeline.TwoGetsTooLarge | server_phase5.cpp:436-457 | two literal GETs of 28 bytes and limits of 40: one 413 in one piece, two requests in two |
| BareLf.BareLfEventsDependOnCut | http.hpp:79-85 | any bare-LF request followed by any printed one: two pieces give two requests, one piece gives the first alone with the bytes of both |
| BareLf.TwoGets | http.hpp:79-85 | two literal GETs, one stream, two deliveries: one event and two |
| Upstream.ReadResponse | server_phase5.cpp:283-346 | the read loop computes the specified outcome for every script of recv results |
| Upstream.ReadEnds | server_phase5.cpp:283-346 | for every script the loop uses up results in order and returns what the last calls for: a stall is a timeout and a reset an error, whatever has come, and each limit is reported exactly when exceeded |
| Upstream.ResponseEnds | server_phase5.cpp:283-346 | a response is returned only after end of file, or complete under the head parsed from its own bytes, without a stall or reset before |
| Upstream.FramedRead | server_phase5.cpp:283-346 | for every split of a framed message within the limits the loop stops on its last piece, without end of file, and returns exactly that message |
| Upstream.LengthFramed | http.hpp:313-319 | a Content-Length message is framed: complete as a whole and on no proper prefix |
| Upstream.ChunkedFramed | http.hpp:313-319 | a chunked message is framed likewise |
| Upstream.CloseDelimitedRead | server_phase5.cpp:319-346 | a close-delimited message is returned whole at end of file and never before |
| Upstream.TruncationAccepted | server_phase5.cpp:317-346 | a framed message cut by end of file is accepted as it is |
| Upstream.FetchedAgrees | server_phase5.cpp:293-344 | for every script the head parsed early agrees with a parse of the full buffer in everything but, on an ambiguous buffer, its size |
| Splits.SettledRead | server_phase5.cpp:283-346 | under the condition below every split gives the outcome named in advance: the bytes and status, or the error |
| Splits.SameAtEverySplitIff | server_phase5.cpp:283-346 | for all bytes, ends, limits and receive buffers of two bytes or more: every split gives one outcome if and only if no head ends, or it ends out of reach, or it ends within the limit and is refused or, under each head a split can make the loop parse, the message ends at the same place |
| LfResponse.LfResponseDependsOnCut | http.hpp:79-85 | any bare-LF response with a length whose body ends in its only CRLFCRLF: fetched in two pieces, a timeout in one |
| LfResponse.FourBytes | http.hpp:79-85 | the literal response with a body of CRLFCRLF |
| Fetching.LengthResponseRead | server_phase5.cpp:283-319 | any printed response with a Content-Length, in any pieces, is read to its last byte and no further, with its status and body |
| Fetching.ChunkedResponseRead | server_phase5.cpp:283-319 | any printed chunked response, with any chunk data, in any pieces, likewise |
| Fetching.CloseDelimitedResponseRead | server_phase5.cpp:283-346 | any printed response with neither field is returned at end of file, and times out without one |
| Upstream.FetchedInBounds | server_phase5.cpp:283-344 | from any state of the loop a returned response has a valid head, is within the size limit and is a prefix of the bytes received |
| Upstream.ResponseInBounds | server_phase5.cpp:283-344 | the same of the loop as it is called, from an empty buffer |
| Sender.SendAll | server_phase5.cpp:193-213 | the peer receives a prefix of the data, all of it exactly when the call succeeds, which is exactly when the socket has room before the first fatal result |
| Sender.GivesUp | server_phase5.cpp:193-213 | the socket's room ends at the first impatient result, whatever would come after |
| Sender.PatientRoom | server_phase5.cpp:193-213 | with a patient peer only the number of bytes taken matters, not their split or delay |
| Lru.Inclusion | lru_cache.hpp:51-88 | on any trace of writes, removals, resets and read-through accesses a smaller cache holds a prefix of a larger one and never hits more often |
| Lru.BareGetInclusion | lru_cache.hpp:51-61 | exactly when one bare get keeps the inclusion |
| Lru.InclusionIff | lru_cache.hpp:51-88 | on any trace with bare gets the inclusion holds throughout if and only if each bare get, when its turn comes, finds the caches in one of those cases |
| Lru.BareGetBreaks | lru_cache.hpp:51-61 | two puts and a bare get leave caches of capacity one and two with key orders that are no prefix of each other |
| Lru.Retained | lru_cache.hpp:51-88 | a key survives while the keys ahead of it and the other keys used are fewer than the capacity |
| Lru.JustUsedRetained | lru_cache.hpp:51-88 | a key just put or hit survives while fewer than capacity other keys are used |
| Lru.RunBalanced | lru_cache.hpp:51-122 | over every run a value held is the last one put, hits plus misses are the gets, and size is inserts minus evictions minus erases |
| LruList.LruCache.Get | lru_cache.hpp:51-61 | the linked list and index do exactly what exact LRU does on a get, keeping node identity |
| LruList.LruCache.Put | lru_cache.hpp:64-79 | update with splice, eviction of the last node and insertion at the front, exactly as exact LRU |
| LruList.LruCache.Erase | lru_cache.hpp:81-88 | removal from list and index, exactly as exact LRU |
| LruList.LruCache.Reset | lru_cache.hpp:117-122 | everything forgotten, counters included |
| LruList.LruCache.Splice | lru_cache.hpp:59-69 | moving a node to the front relinks it, keeps every node and every other order |
| Words.MixBijective | lru_cache.hpp:145-153 | the mixer is a bijection on 64-bit words, with an explicit inverse |
| Words.ShardShare | lru_cache.hpp:145-153 | the mask is the remainder by the number of shards, and each shard owns exactly 2^64/n hash values |
| Words.RoundUpPow2 | lru_cache.hpp:139-143 | the result is the least power of two that is at least the request |
| Words.RoundUpEndsIff | lru_cache.hpp:139-143 | the doubling loop ends if and only if the request is at most 2^63 |
| Words.CapacityBounds | lru_cache.hpp:157-165 | the capacity allotted lies above total - n and is at most max(total, n) |
| Sharded.ShardIsLru | lru_cache.hpp:133-199 | on any trace each shard behaves, in state and replies, as one exact LRU on its own sub-trace |
| Sharded.Indistinguishable | lru_cache.hpp:133-199 | interleavings with the same order per shard give the same state and the same replies |
| Sharded.OneShardIsPlain | lru_cache.hpp:133-199 | with one shard the sharded cache is a plain one |
| Sharded.ShardRetained | lru_cache.hpp:133-199 | a key of the sharded cache survives while the other keys used on its own shard leave room |
| Sharded.ShardBalanced | lru_cache.hpp:133-199 | values and counters of each shard balance against the operations on that shard |
| Sharded.ShardedLruCache.constructor | lru_cache.hpp:157-165 | a power-of-two number of empty shards sharing the capacity |
| Sharded.ShardedLruCache.Pick | lru_cache.hpp:145-153 | the shard of a key is the remainder of its mixed hash by the number of shards |
| Sharded.ShardedLruCache.Get | lru_cache.hpp:167 | acts on the selected shard alone |
| Sharded.ShardedLruCache.Put | lru_cache.hpp:168 | acts on the selected shard alone |
| Sharded.ShardedLruCache.Erase | lru_cache.hpp:169 | acts on the selected shard alone |
| Sharded.ShardedLruCache.Reset | lru_cache.hpp:196-198 | resets every shard |
| Sharded.ShardedLruCache.Capacity | lru_cache.hpp:190-194 | the loop's sum is the number of shards times the capacity of one |
| TaskQueue.TaskQueue.Push | server_phase5.cpp:58-69 | appends the task exactly when not shut down, and raises the high-water mark |
| TaskQueue.TaskQueue.TryPop | server_phase5.cpp:72-79 | the front task, and without one the end of work exactly after the stop |
| TaskQueue.AcceptedArePushed | server_phase5.cpp:58-69 | over every run the tasks handed out and queued are those carried by the pushes before the stop, all of them, in order; the high-water mark is the largest length the queue has had |
| TaskQueue.ApplyNoLostWakeup | server_phase5.cpp:51-88 | every step keeps: if a worker sleeps, queued tasks are at most notifications under way plus workers just woken |
| TaskQueue.QueueSafety | server_phase5.cpp:51-120 | over every run, spurious wake-ups included: no lost wake-up, nobody sleeps after the stop, tasks leave once each in push order, and before any worker exits all accepted tasks have left |
| TaskQueue.StuckNever | server_phase5.cpp:72-88 | tasks with only sleepers left to take them have their notifications under way |
| TaskQueue.StepDrains | server_phase5.cpp:81-87 | after the stop every step but a new submission lowers the measure of steps left |
| TaskQueue.ShutdownDrains | server_phase5.cpp:785-787 | over every run: once the stopper is done every continuation without new submissions is bounded, and where it can go no further all workers have exited and every accepted task was handed out |
| ConnMachine.StepKeeps | server_phase5.cpp:162-180 | every step of every thread is sound (no dangling pointer, no foreign descriptor, no counter underflow) and keeps the invariant |
| ConnMachine.OwnershipSafety | server_phase5.cpp:728-783 | over every run: no crash, each live connection has exactly one owner, and no owner holds a freed one |
| ConnMachine.DescriptorsDistinct | server_phase5.cpp:742-780 | over every run, under descriptor reuse, open connections have distinct descriptors, each denoting its own socket |
| ConnMachine.NeverStranded | server_phase5.cpp:517-522 | over every run an armed connection with unread bytes or end of file is marked ready, and can be reported whenever the epoll thread waits |
| ConnHistory.DescriptorsReturned | server_phase5.cpp:172-180 | over every run the open descriptors are exactly the one just accepted and those of live connections not closed yet; with neither, none is open |
| ConnHistory.EndedIffDecided | server_phase5.cpp:515-522 | over every run a connection is freed or on its way there exactly when its handler or a refused registration decided so; at rest, exactly those are freed |
| ConnHistory.ServedInOrder | server_phase5.cpp:72-88 | over every run workers take connections in the order the kernel reported them, none lost and none twice |
| ConnHistory.UnreadUntilRead | server_phase5.cpp:436-457 | bytes are unread from their arrival until they are read, and no other step changes that |
| ConnProgress.StepWork | server_phase5.cpp:728-783 | every step of the program's own, whatever the kernel answers, changes nothing (a failed retry, a read that finds nothing) or lowers the work left |
| ConnProgress.StuckIff | server_phase5.cpp:517-522 | the program can move no further if and only if the epoll thread waits and every live connection is armed with nothing unread |
| ConnProgress.NeverForgotten | server_phase5.cpp:517-522 | over every run, every continuation by moves of the program's own is at most as long as the work left, and where none can follow every live connection waits for the network |
| ConnProgress.ComesToRest | server_phase5.cpp:517-522 | from every good state some run of such moves gets there |
| ConnMachine.ActiveIsExact | server_phase5.cpp:172-180 | over every run the active counter is the number of live connections past their increment and before their decrement |
| ConnMachine.PeakIsMaximum | server_phase5.cpp:759-764 | over every run, outside the compare-and-swap loop, the peak is the historical maximum of the active counter, weak failures included |
| ConnMachine.ClosedAtMostOnce | server_phase5.cpp:172-180 | over every run each connection is closed at most once |
| Acl.CoversIff | http.hpp:40-53 | a test on two patterns decides containment of the sets of values they match |
| Acl.SuffixPattern | http.hpp:42-46 | `*.s` matches exactly the values that end in `.s` |
| Acl.PrefixPattern | http.hpp:47-51 | `p*` matches exactly the values that start with `p`, unless it reads as a suffix pattern |
| Acl.ExactPattern | http.hpp:52 | a pattern without star matches itself alone |
| Acl.AuthorityRoundTrip | http.hpp:345-360 | host, colon and port written together are read back; without a colon the port is 80 |
| Acl.Split | http.hpp:345-360 | the digit scan computes the specified host and port |
| Acl.SplitFolded | http.hpp:345-360 | letter case changes neither the port nor, up to case, the host |
| Acl.ResolveFolded | http.hpp:372-377 | hosts equal up to case are routed to the same port and, up to case, the same host, by every table |
| Acl.RouteTable.ResolveHost | http.hpp:372-377 | the table scan computes the specified upstream |
| Acl.VerdictOfResource | http.hpp:431-442 | requests with the same folded method, folded host and path get the identical verdict from every rule list |
| Acl.AccessControl.Check | http.hpp:431-442 | the rule scan returns the first match or the default |
| AclMeaning.FirstRuleDecides | http.hpp:431-442 | the first rule whose pattern matches the folded host, the path or the folded method, as its field says, gives decision and name; without one, the policy and `default` |
| AclMeaning.FirstRouteServes | http.hpp:372-377 | the first route whose pattern matches the folded host gives the upstream; without one, the host and its port |
| AclMeaning.OddAuthority | http.hpp:345-360 | a port out of range becomes 80; what is no number after the last colon belongs to the host |
| Acl.ReorderSameDecision | http.hpp:393-442 | any reordering of a run of rules with one decision leaves every decision unchanged |
| Acl.DropCovered | http.hpp:393-442 | a rule covered by an earlier one on the same field can be deleted without changing any verdict |
| Acl.AccessControl.LoadString | http.hpp:446-499 | the loader reaches the specified state and reports the specified error and line, keeping what preceded the error |
| Acl.RuleLineParses | http.hpp:468-481 | a rule written out is read back |
| Acl.DefaultLineParses | http.hpp:460-467 | a default policy written out is read back, or refused |
| Acl.RouteLineParses | http.hpp:482-491 | a route written out is read back |
| AclMeaning.SkippedLines | http.hpp:446-459 | empty lines and comments are skipped, whatever blanks are around them |
| AclMeaning.AroundIrrelevant | http.hpp:452 | blanks around a line never matter |
| AclMeaning.UnknownVerb | http.hpp:492-495 | any other verb is an error that names it |
| AclMeaning.NoPattern | http.hpp:468-481 | a rule without a pattern is an error |
| AclMeaning.NoSuchField | http.hpp:468-481 | a rule on any other field is an error |
| AclMeaning.BadRoutes | http.hpp:482-491 | a route without a host, or with a port out of range, is an error |
| AclMeaning.FirstBadLine | http.hpp:446-499 | the first bad line stops the load with its number and error, and what precedes it is kept |
| Acl.LoadJoined | http.hpp:446-499 | loading two texts joined by a line break is loading one after the other, in success, state and error line |
| Acl.InterleavingIrrelevant | http.hpp:446-499 | only the order of rules among rules, routes among routes and defaults among defaults matters |
| CacheKey.KeyIff | server_phase5.cpp:393 | two keys are equal exactly when the methods are and folded host and path read the same run together |
| CacheKey.KeySeparates | server_phase5.cpp:393 | when hosts have no slash and paths start with one, equal keys mean equal method, folded host and path |
| CacheKey.KeyCollision | server_phase5.cpp:391-393 | two received requests for different resources with one key, a slash in one host |
| CacheKey.KeyCollisionWithoutSlash | server_phase5.cpp:391-393 | two more, with no slash in either host and a target that does not start with one |
| CacheKey.KeyCrossesIff | server_phase5.cpp:391-393 | a received request shares its key with some received ordinary request of another resource if and only if its target is not plain and folded host and path, run together, read as an ordinary one |
| Serve.StepKeeps | server_phase5.cpp:352-427 | every step of every worker keeps cache provenance, log faithfulness and counter balance |
| Replies.EveryLine | server_phase5.cpp:352-427 | over every run each log line is a stored response to a GET or HEAD without Authorization, the 403 page (for a good request exactly when denied), a 400 or 502 with its text, or the very bytes the origin had given to that request, under their status; MISS and BYPASS say whether the cache was asked |
| Replies.KindsCounted | server_phase5.cpp:352-427 | over every run each counter is the number of lines of its kind, those still to be logged aside |
| Replies.BegunAndRefused | server_phase5.cpp:352-490 | over every run the total is the number of requests begun, and the bad ones the number refused with 400 or 431 |
| Replies.OneLineEach | server_phase5.cpp:352-490 | over every run the requests begun are those logged and those in hand, each once |
| Replies.FetchesAreExchanges | server_phase5.cpp:404-421 | over every run what origins gave is exactly what the exchanges of the run brought, each for the request it was made for |
| Replies.ExchangesCounted | server_phase5.cpp:406-418 | over every run failed exchanges are the upstream errors, and the others the forwarded requests, those about to be counted aside |
| Replies.MissedFirst | server_phase5.cpp:395-406 | over every run no request that may use the cache is taken to an origin without a miss of its own |
| Serve.HitProvenance | server_phase5.cpp:395-424 | over every run each HIT in the log is a 200 for an allowed request, and some step of the run is the lookup that found its bytes; in the state before that step the origin had already given exactly those bytes under the same key, fit to be stored |
| Serve.StorableAsPrinted | http.hpp:322-334 | a printed response is fit to be stored exactly when it was fetched for an allowed GET or HEAD without Authorization, its status is 200, it has no Set-Cookie, and its last Cache-Control forbids nothing |
| Serve.StoredIsServed | server_phase5.cpp:395-422 | a response kept answers the next lookup of its key byte for byte; one not kept leaves the shard alone |
| Serve.HitSameResource | server_phase5.cpp:373-402 | over every run, for a HIT in the log whose target is plain: the lookup that found its bytes, and the fetch that had brought them before it, which, if its target is plain too, was for the same resource, with the same verdict and the same upstream |
| SharedKey.SharedKeyHits | server_phase5.cpp:391-422 | for any two received requests with one key that may use the cache, some run logs a HIT for the second with exactly the bytes the origin gave to the first, nothing having been fetched for the second |
| SharedKey.HitAcrossHosts | server_phase5.cpp:391-422 | such a run for two requests with different hosts |
| Serve.LogIsFaithful | server_phase5.cpp:363-426 | over every run each log line states the status and length of the bytes handed to send |
| Serve.CountersBalance | server_phase5.cpp:352-427 | over every run total = denied + cache served + forwarded + upstream errors + in flight; at rest log lines = total + 400 replies and cache hits = cache served |

## Left out

- Sockets, epoll, DNS, signals and resource limits: their results are steps or scripts of the environment.
- Timeouts: a socket that sends nothing more ends a read script; durations are not modelled.
- Log text, timestamps, buffering and flushing: only the number of lines and, for each, status, size and cache state.
- Text of error messages: an arbitrary text of bounded length in 400 and 502 replies; an enumeration in the loader.
- `stats()`, hit rates and the periodic report: floating point, and not a snapshot while threads run.
- Command line, options and listener set-up: fixed parameters of the model.
- Freshness of cached responses, framing of HEAD, 1xx, 204 and 304 responses, chunked request bodies: not implemented by the code.
- Earlier phases of the server, the origin server, benchmarks and scripts.
- ClientStream.SegmentationIndependentIff: deliveries in which `recv` fails are not covered; what is served then depends on when it fails.
- Splits.SameAtEverySplitIff: a peer that resets the connection is not covered; it closes after its last byte or says nothing more.
- ClientStream.Conn.HandleReady: what `serve_one_request` answers is an oracle indexed by the ordinal of the request; of a parsed request the events keep all but `raw`, of which only the first bytes are used and kept, and `header_bytes`, which only the framing uses.
- CacheKey.KeyCrossesIff: the other request is an ordinary one, with no blank in host or path; two requests that are both out of the ordinary share keys as `CacheKey.KeyIff` says.
- Upstream.FramedRead: stated for responses that carry a body, as the code knows no other kind.
- LruList.LruCache.Put: the index is a map from keys to nodes; hashing and rehashing inside it are not modelled.
- ConnMachine.StepKeeps: identities of heap objects are never reused, events are collected one descriptor at a time while the epoll thread waits (which allows every batch the kernel can deliver), and the inside of `handle_ready` is its reads and its decision.
- ConnMachine.OwnershipSafety: after shutdown idle armed connections stay allocated, as in the code.
- ConnProgress.NeverForgotten: moves are counted, time is not; steps that change nothing (a weak compare-and-swap that fails on an unchanged peak, a further read that finds nothing) are not counted; push and pop of the queue are atomic there, and how they interleave inside is module `TaskQueue`.
- Sender.SendAll: a script that ends stands for a socket that never becomes writable again.
- Serve.StepKeeps: sending a reply is not a step of its own, since a failed send only decides whether the connection is kept; 413 replies change no counter and no log.
- Words.RoundUpPow2: requires a request of at most 2^63, beyond which the source loops for ever.
- Acl.AccessControl.LoadString: reading the file is left out; the text is a parameter.
- Text of numbers above the range of a 32-bit `int` in `atoi` follows the common C library: `strtol` narrowed.
