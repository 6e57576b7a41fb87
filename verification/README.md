# Verified models of the market-making platform

Dafny models of six parts of the platform, each proved against what its source,
its comments or the standard it follows promises:

1. **HMM inference** (`quant/regime_detector.py`). The scaled forward and backward
   passes, the Baum-Welch accumulators and the online belief update are loops over
   matrices. Their meaning is a sum over all hidden paths, written down as such in
   `HiddenPaths`; the loops are proved to compute it (`ForwardBackward`, `BaumWelch`,
   `RegimeDetector`, on the vector laws of `LinearAlgebra`).
2. **The lock-free data path** (`spsc_queue.h`, `atomic_double_buffer.h`, `seqlock.h`,
   and the order-event map of `gate_connector.cpp`). Each is a state machine whose
   steps are single loads, exchanges and word copies; the theorems hold in every
   interleaving (`SpscQueue`, `OrderEvents`, `AtomicDoubleBuffer`, `Seqlock`).
3. **The request/response protocol** of the Gate connector: many callers, one IO thread,
   two mutexes, promises, timeouts, teardown and reconnect (`GateProtocol`).
4. **WebSocket framing** (`net_utils.cpp`, sections 5.2 to 5.5 of RFC 6455): a printer and
   a parser that undo each other, reassembly of fragments, and the receive loop that
   answers pings (`WsFrames`, `WsMessages`, `WsClient`, with `Masks` for machine integers).
5. **The order grid and the fill engine** (`order_manager.py`, `fill_simulator.py`,
   `depth_engine.py`): diff-and-repost over whole runs, greedy matching against a closed
   form, and a budget allocation (`OrderGrid`, `OrderManager`, `Matching`, `FillSimulator`,
   `DepthEngine`, with `Filters`, `Orders`, `Reals`).
6. **The rate limiters** (`rate_limiter.h`, `safety/rate_limiter.py`): a bound on the grants
   in every time window of every run (`RateLimiter`, `TokenBucket`).

A specification is a function on values; the code that changes state step by step is a
class or a method with the source's loops, and its postcondition ties the new state to
that function. The laws are lemmas about the function. `dafny verify dfyconfig.toml`
checks the whole project.

Where the code and its own documentation disagree, the model follows the code:

- `quant/regime_detector.py:21` and `:45` speak of 108 observation codes; the sizes multiply
  to 324.
- `seqlock.h:19-25` has a reader retry while the counter is odd; the `continue` of
  `seqlock.h:97` goes to the loop test instead, so a load can leave on an odd count.
  `Seqlock.EvenLoadsAreWhole` is stated for even exits; `Seqlock.OddExitIff` says exactly when
  a load leaves on an odd count and `Seqlock.OddLoadsReturn` what it returns then. Two
  schedules show the worst of it: `Seqlock.OddLoadCanTear` returns half of each of two
  values, `Seqlock.OddLoadCanReturnJunk` the uninitialised local variable.
- `rate_limiter.h` describes the backoff as 1 s, 2 s, ... 32 s; the first error already waits
  2 s, because the value is doubled before it is used.
- `depth_engine.py:16` speaks of adjusting the total budget between the sides; outside a skew of
  [0.5, 1.5] the two sides together exceed it (`DepthEngine.SkewMovesBudget`).
- `depth_engine.py:95-104` says that the total is capped back to the side budget; the scaling
  branch never takes effect. `DepthEngine.TotalFitsIff` says when the total fits.
- `net_utils.cpp:123-131` narrows the bytes still wanted to a 32-bit int, so a frame of 2^31
  bytes or more is never received, although the length field allows up to 2^64.
- `net_utils.cpp:360-419` forgets what it has assembled when a control frame or a timeout
  comes between two fragments, although section 5.4 of RFC 6455 allows control frames there.
  `WsMessages.DeliveredIffUninterrupted`: a message is delivered if and only if nothing comes
  between its fragments, for any list of pings, pongs and timeouts in any places.
- `gate_connector.cpp:546-547` clears `ws_ready_` and then `ws_ptr_` so that no caller sends on
  a dead socket. But the `WsClient` of line 453 is a local of the block that ends at line 541,
  so it is destroyed before the pointer is cleared at line 553.
  `GateProtocol.DeadSendExactlyWhen` says when a caller sends through the dangling pointer,
  and `GateProtocol.DeadSendCanHappen` is a schedule in which one does.
- `fill_simulator.py:17-19` gives the profit of a sell without the fee; the code subtracts it.

## Model

| member | source | states |
|---|---|---|
| HiddenPaths.PathsExactlyOnce | quant/regime_detector.py:216-232 | the list of hidden paths summed over holds every path of that length exactly once and nothing else, so the path sums below are the textbook ones |
| HiddenPaths.ExtendAdvance | quant/regime_detector.py:226-230 | lengthening every path by one state and summing by last state is one multiplication by A and by the emission column (the sum-swapping step of the forward pass) |
| ForwardBackward.Forward | quant/regime_detector.py:216-235 | the loop fills alpha and scale with the scaled forward rows, for every observation sequence, with zero sums replaced by the guard, and returns the sum of the logarithms of the scales |
| ForwardBackward.LogLikelihoodIsLog | quant/regime_detector.py:234 | for a logarithm the returned log-likelihood is the logarithm of the product of the scales, each with the guard added |
| ForwardBackward.ForwardIsPathSum | quant/regime_detector.py:216-232 | alpha[t] times the product of scale[0..t] is, for each state, the total joint probability of all hidden paths of length t+1 that end in it; no sign condition needed |
| ForwardBackward.LikelihoodFactors | quant/regime_detector.py:216-235 | the probability of the observations, summed over all hidden paths, is the product of the scales times the total of the last alpha row |
| ForwardBackward.ZeroPersists | quant/regime_detector.py:220-232 | once a scale came out as zero, every later alpha row is zero |
| ForwardBackward.LiveIff | quant/regime_detector.py:220-232 | for non-negative parameters no scale was replaced if and only if the last one was not |
| ForwardBackward.ScalesGiveLikelihood | quant/regime_detector.py:220-235 | for non-negative parameters the product of the scales is the likelihood if and only if no scale was replaced, and the likelihood is positive exactly then |
| ForwardBackward.Backward | quant/regime_detector.py:238-248 | the loop fills beta with the backward rows divided by the forward scales |
| ForwardBackward.Transfer | quant/regime_detector.py:226-246 | one observation consumed by the forward step equals one handed back by the backward step, for every vector |
| ForwardBackward.AlphaBetaTotal | quant/regime_detector.py:238-248 | the sum over states of alpha[t] * beta[t] is 1 at every t when the last scale is non-zero, and 0 otherwise |
| ForwardBackward.GammaIsProduct | quant/regime_detector.py:277-280 | on a live sequence the normalisation of gamma divides by one: gamma is alpha * beta and sums to 1 |
| ForwardBackward.XiMarginals | quant/regime_detector.py:283-289 | xi_t sums to 1, its row sums are gamma[t], its column sums are gamma[t+1] |
| ForwardBackward.GammaIsPosterior | quant/regime_detector.py:277-280 | gamma[t][i] times the likelihood is the joint probability of all full paths that are in state i at time t |
| ForwardBackward.XiIsPosterior | quant/regime_detector.py:283-289 | xi_t[i][j] times the likelihood is the joint probability of all full paths that are in i at t and in j at t+1 |
| BaumWelch.AccumulateTransitions | quant/regime_detector.py:282-289 | the loop adds xi_t for every t below T-1 |
| BaumWelch.AccumulateEmissions | quant/regime_detector.py:291-293 | the loop adds gamma[t] to the column of the symbol observed at t |
| BaumWelch.Accumulate | quant/regime_detector.py:273-293 | one sequence adds exactly its initial, transition and emission counts to the accumulators and yields its log-likelihood |
| BaumWelch.TransitionCountsMean | quant/regime_detector.py:282-289 | A_acc[i][j] times the likelihood is the sum, over all hidden paths, of their joint probability times the number of moves from i to j on them: the expected count |
| BaumWelch.EmissionCountsMean | quant/regime_detector.py:291-293 | B_acc[i][o] times the likelihood is the sum, over all hidden paths, of their joint probability times the number of times i emits o on them |
| BaumWelch.TransitionRowTotals | quant/regime_detector.py:282-289 | row i of A_acc totals the sum of gamma[t][i] for t below T-1 |
| BaumWelch.EmissionRowTotals | quant/regime_detector.py:291-293 | row i of B_acc totals the sum of gamma[t][i] over all t |
| BaumWelch.CountsConserved | quant/regime_detector.py:264-293 | over any list of sequences the accumulators are non-negative and conserve counts: one start per sequence used, one emission per observation in those, one transition per gap |
| BaumWelch.EstimateIsShare | quant/regime_detector.py:295-301 | unless the floor is reached, each re-estimated probability is exactly its count divided by the total: the guard and the renormalisation cancel out, for every positive guard and every floor |
| BaumWelch.SharesCanReachTheFloor | quant/regime_detector.py:295-301 | there are counts that meet that condition, right down to the floor |
| BaumWelch.ReestimateShares | quant/regime_detector.py:295-301 | row i of the new A is made from row i of the transition counts, row i of B from row i of the emission counts, and pi from the starts: with one positive factor, every entry is its count over the guarded total, raised to the floor |
| BaumWelch.SharesAreUnique | quant/regime_detector.py:295-301 | no other row meets that description |
| BaumWelch.CollectIsExpected | quant/regime_detector.py:264-293 | over any list of sequences each accumulator is the sum, over the sequences used, of the expected number of its starts, moves or emissions on the hidden paths |
| BaumWelch.RoundIsExpectedShare | quant/regime_detector.py:264-301 | a round of EM in terms of hidden paths: above the floor the new A[i][j] times the expected moves out of i is the expected number of moves from i to j, and likewise for the emissions of each state and for the starts |
| BaumWelch.Reestimate | quant/regime_detector.py:295-301 | from any non-negative counts, even all zero, re-estimation gives a stochastic model with strictly positive entries; which counts go where is `ReestimateShares` |
| BaumWelch.Round | quant/regime_detector.py:264-301 | one pass of the outer loop, skipping sequences shorter than two, is the re-estimation of the collected counts, every row of the model made from the same row of the counts, and totals their log-likelihoods |
| BaumWelch.TotalIsLog | quant/regime_detector.py:268-275 | for a logarithm the total of a pass is the logarithm of the product of the guarded scales of all sequences of two or more |
| BaumWelch.Train | quant/regime_detector.py:251-310 | training is a number of whole EM rounds: it stops after the first round, but not the very first, whose log-likelihood moved by less than tol, or after n_iter rounds; the result is stochastic and strictly positive |
| BaumWelch.StoppingRule | quant/regime_detector.py:303-308 | training that ends before n_iter rounds ends after at least two, the last two log-likelihoods less than tol apart, and all earlier neighbours tol or more apart |
| RegimeDetector.DecodeEncode | quant/regime_detector.py:189-194 | the five features can be read back from an observation code, and every code is below 324 |
| RegimeDetector.EncodeDecode | quant/regime_detector.py:189-194 | every code below 324 is the code of some features, so encoding is a bijection |
| RegimeDetector.DefaultsAreStochastic | quant/regime_detector.py:58-145 | the default pi, A and B are probability distributions, row by row |
| RegimeDetector.FeaturesAreIndependent | quant/regime_detector.py:79-145 | the default B treats the features as independent given the state: changing one feature changes the probability in the odds of that feature's own table, whatever the other four are |
| RegimeDetector.UpdateKeepsForwardRow | quant/regime_detector.py:342-359 | one update keeps the belief a distribution and the last forward row on the observations absorbed since the last reset |
| RegimeDetector.FilterIsForward | quant/regime_detector.py:342-359 | over any run of updates, with out-of-range observations and resets anywhere, the belief is a distribution and equals the last scaled row of the forward pass on those observations, started from pi @ A |
| RegimeDetector.ResetsExactlyWhen | quant/regime_detector.py:342-359 | over any run an observation out of range changes nothing; one in range resets the belief to pi if and only if its probability given the observations absorbed is below the threshold, and is absorbed otherwise |
| RegimeDetector.BeliefIsPosterior | quant/regime_detector.py:342-359 | the belief is the exact posterior of the current state: times the likelihood of the absorbed observations, it is the weight of all hidden paths that end there |
| RegimeDetector.RegimeDetector.constructor | quant/regime_detector.py:332-338 | a new detector holds the defaults, believes pi and satisfies the invariant |
| RegimeDetector.RegimeDetector.Update | quant/regime_detector.py:342-359 | an update moves the filter by one step and records the observation if it is in range |
| RegimeDetector.RegimeDetector.Train | quant/regime_detector.py:402-414 | training replaces the model by the EM rounds of baum_welch, stopped as there, and restarts the belief from the new pi |
| Masks.RingMask | exchange/cpp/include/spsc_queue.h:66-69 | under the static_asserts, `& (N - 1)` is the remainder modulo N, for every position |
| SpscQueue.RunKeepsInv | exchange/cpp/include/spsc_queue.h:80-114 | every interleaving of one producer and one consumer, for every power-of-two N, keeps indices, slots and local variables consistent |
| SpscQueue.PoppedIsPrefix | exchange/cpp/include/spsc_queue.h:80-114 | popped items are a prefix of the accepted ones, in order, with at most N-1 in flight |
| SpscQueue.Refinement | exchange/cpp/include/spsc_queue.h:80-114 | each step leaves the abstract unbounded queue alone, appends the pushed item, or removes the head and returns it |
| SpscQueue.FailsExactlyWhen | exchange/cpp/include/spsc_queue.h:81-103 | push fails exactly when N-1 items are held as it reads read_pos_; pop fails exactly when none is as it reads write_pos_ |
| SpscQueue.NoOverlap | exchange/cpp/include/spsc_queue.h:88-107 | the slot being written is never the slot being read, and a slot being read keeps its item until it is released |
| SpscQueue.OfferedOrAccepted | exchange/cpp/include/spsc_queue.h:80-96 | unless some push failed, the accepted items are exactly the offered ones |
| SpscQueue.Ring.Act | exchange/cpp/include/spsc_queue.h:80-114 | each atomic action of the object is a step of the state machine |
| SpscQueue.Ring.Push | exchange/cpp/include/spsc_queue.h:80-96 | an uninterrupted push appends the item and returns true, or returns false on a full ring and changes nothing |
| SpscQueue.Ring.Pop | exchange/cpp/include/spsc_queue.h:100-114 | an uninterrupted pop removes and returns the head, or returns false on an empty ring |
| OrderEvents.FoldMeaning | exchange/cpp/src/gate_connector.cpp:755-778 | after any event history an order is in the map if and only if the last event about it opened it, with that event's data |
| OrderEvents.SysRunKeepsInv | exchange/cpp/src/gate_connector.cpp:755-778 | under any interleaving with pushes the map is the fold of the events popped so far |
| OrderEvents.DrainIsFold | exchange/cpp/src/gate_connector.cpp:755-778 | when a drain finishes, the map and the result are the fold of all events accepted before its last emptiness check; without a failed push, of the full event history |
| OrderEvents.DrainEndsAtEmptyQueue | exchange/cpp/src/gate_connector.cpp:755-778 | the drain ends exactly at a check that finds every accepted event already applied |
| OrderEvents.OrderFeed.OnOrderMsg | exchange/cpp/src/gate_connector.cpp:663-694 | one event is offered per item that has an id, in order; those that fit are queued and the others dropped; what the events say of the items is in the next three rows |
| OrderEvents.EventsReportItems | exchange/cpp/src/gate_connector.cpp:671-685 | every event reports an item with an id and every such item is reported: opened if its status is "open", filled if "closed", cancelled for any other |
| OrderEvents.LastItemDecides | exchange/cpp/src/gate_connector.cpp:663-778 | applied to any map, the events of a push leave an id in it if and only if the last item with that id has status "open", with that item's order; ids without an item stay as they were |
| OrderEvents.OrderFeed.PushThenFetch | exchange/cpp/src/gate_connector.cpp:663-778 | the same end to end for the two methods: a push into an empty queue with room for it and the fetch after it |
| OrderEvents.OrderFeed.FetchOpenOrders | exchange/cpp/src/gate_connector.cpp:755-778 | an uninterrupted drain applies every queued event in order, leaves the queue empty and returns the map |
| AtomicDoubleBuffer.RunKeepsInv | exchange/cpp/include/atomic_double_buffer.h:93-163 | every interleaving of one writer and one reader, with values copied word by word, keeps ownership, contents and history consistent |
| AtomicDoubleBuffer.SlotsArePermutation | exchange/cpp/include/atomic_double_buffer.h:147-163 | writer's, reader's and shared slot, counting one held between exchange and assignment, are a permutation of {0,1,2}; no step writes a slot being read |
| AtomicDoubleBuffer.LoadsAreWholeAndFresh | exchange/cpp/include/atomic_double_buffer.h:93-135 | every load returns one whole stored value, at least as new as the last publication before its peek, and versions never go backwards |
| AtomicDoubleBuffer.FlagMeansNewer | exchange/cpp/include/atomic_double_buffer.h:139-141 | the new-data bit is set if and only if something newer than the reader's slot has been published |
| AtomicDoubleBuffer.Buffer.Store | exchange/cpp/include/atomic_double_buffer.h:93-109 | an uninterrupted store publishes the value |
| AtomicDoubleBuffer.Buffer.Load | exchange/cpp/include/atomic_double_buffer.h:117-135 | an uninterrupted load returns the last published value |
| Seqlock.RunKeepsInv | exchange/cpp/include/seqlock.h:61-113 | every interleaving of one writer and any number of readers, word by word, with a 32-bit counter that wraps, keeps the invariant |
| Seqlock.EvenLoadsAreWhole | exchange/cpp/include/seqlock.h:87-113 | a load that exits on an even s1, with fewer than 2^31 stores completed between its two counter reads, returns words all from one store, the newest at both reads |
| Seqlock.SameWord | exchange/cpp/include/seqlock.h:107-110 | equal wrapped counts fewer than 2^31 stores apart are equal counts; otherwise they are a multiple of 2^31 stores apart |
| Seqlock.OddMeansWriting | exchange/cpp/include/seqlock.h:117-119 | the counter is odd if and only if a store is in progress |
| Seqlock.OddReadExits | exchange/cpp/include/seqlock.h:97-110 | a reader that finds an odd count leaves the loop exactly when the old or unset s2 equals it |
| Seqlock.OddExitIff | exchange/cpp/include/seqlock.h:87-113 | over every run, a load that read an odd count leaves the loop if and only if it has copied nothing yet and the uninitialised s2 equals the count, or the s2 of its last copying pass was odd and equals the wrapped count just read |
| Seqlock.OddLoadsReturn | exchange/cpp/include/seqlock.h:87-113 | over every run, a load with an odd exit returns its uninitialised value if it copied nothing, and otherwise word by word values whose stores were begun and not yet replaced during its last pass; with fewer than 2^31 stores in between, the store that pass ran into is still the current one |
| Seqlock.OddLoadCanReturnJunk | exchange/cpp/include/seqlock.h:87-113 | a concrete schedule in which a load returns a value that was never stored |
| Seqlock.OddLoadCanTear | exchange/cpp/include/seqlock.h:97-110 | a concrete schedule in which a load that copied returns one word of each of two values: the documented retry does not happen |
| Seqlock.Buffer.Store | exchange/cpp/include/seqlock.h:61-82 | an uninterrupted store replaces every word and leaves the counter even |
| Seqlock.Buffer.Load | exchange/cpp/include/seqlock.h:87-113 | an uninterrupted load returns the stored value |
| GateProtocol.RunKeepsInv | exchange/cpp/src/gate_connector.cpp:255-332 | every interleaving of callers, responses, timeouts, teardowns, reconnects and restarts of the IO thread keeps the protocol invariant, a send through the dangling pointer counting as a send that goes out or throws |
| GateProtocol.PendingAreUnresolved | exchange/cpp/src/gate_connector.cpp:255-332 | whenever the pending mutex is free, every promise in the map is unresolved |
| GateProtocol.ResolvedAtMostOnce | exchange/cpp/src/gate_connector.cpp:581-617 | each promise is resolved at most once, and only by a response with its own request id or by a fail-all |
| GateProtocol.ResolutionIsFinal | exchange/cpp/src/gate_connector.cpp:255-264 | no step changes what a promise was resolved with |
| GateProtocol.BlockedCallerIsReachable | exchange/cpp/src/gate_connector.cpp:269-332 | a caller blocked on an unresolved promise still has its map entry and sent on a socket whose fail-all has not run |
| GateProtocol.FailAllReleasesEveryone | exchange/cpp/src/gate_connector.cpp:546-556 | when the fail-all of a lost socket completes, the map is empty and no caller is left blocked on an unresolved promise |
| GateProtocol.TeardownFailsEverybody | exchange/cpp/src/gate_connector.cpp:538-556 | from every reachable state in which the socket can be lost, while a response is handled too, with no send under way, the IO thread's own steps lead to a state without socket in which every promise that was in the map has failed |
| GateProtocol.ResponseIsHandled | exchange/cpp/src/gate_connector.cpp:581-617 | handling a response fulfils the promise of its id and drops the entry if it is still there, and otherwise changes nothing at all; the IO thread goes on receiving |
| GateProtocol.ResultsAreOwn | exchange/cpp/src/gate_connector.cpp:269-332 | a call that returns or rethrows does so with what the resolution of its own id said; what a response says is in the next rows |
| GateProtocol.AnsweredCallsEndWithTheAnswer | exchange/cpp/src/gate_connector.cpp:595-613 | over every run, a call whose request was answered by a response, and that did not time out or fail to send, returns the body if and only if the status begins with "2" and otherwise throws it; the response names the call's id and the request did go out |
| GateProtocol.ResolvedWaiterGetsItsAnswer | exchange/cpp/src/gate_connector.cpp:269-332 | once its promise is resolved, a waiting caller leaves only with what it was resolved with: the body returned or thrown by its status, or the loss of the socket |
| GateProtocol.CallsEndOnce | exchange/cpp/src/gate_connector.cpp:269-332 | over every run a call ends at most once; it ends with the exception of its send exactly if that threw, with "not connected" exactly if nothing went out, and otherwise its request did go out |
| GateProtocol.NobodyEntersUnconnected | exchange/cpp/src/gate_connector.cpp:269-273 | until connected_ is set no call takes an id |
| GateProtocol.DisconnectedThoughSent | exchange/cpp/src/gate_connector.cpp:269-332 | over every run, a call that ends with Disconnected did send its request, and on a later socket than the one whose fail-all resolved it if and only if its promise was already resolved when the send finished |
| GateProtocol.LateRequestIsDisowned | exchange/cpp/src/gate_connector.cpp:255-332 | a concrete schedule in which a caller is told Disconnected although its request went out on a live socket |
| GateProtocol.EntriesAreAccountedFor | exchange/cpp/src/gate_connector.cpp:269-332 | an unresolved entry belongs to a caller still inside or to a call whose send threw |
| GateProtocol.SendHolderCanMove | exchange/cpp/src/gate_connector.cpp:304-313 | the send mutex is held only by a caller in its send, which can release it without any other lock |
| GateProtocol.PendingHolderCanMove | exchange/cpp/src/gate_connector.cpp:255-264 | the pending mutex is held across steps only by the IO thread, whose next step under it needs no other lock |
| GateProtocol.CallerOrHolderCanMove | exchange/cpp/src/gate_connector.cpp:269-332 | no deadlock: in every reachable state a caller inside ws_api_request has an enabled step, or waits on a mutex whose holder has one |
| GateProtocol.IoOrSenderCanMove | exchange/cpp/src/gate_connector.cpp:338-565 | in every reachable state the IO thread has an enabled step, can be started again, or waits for a send that can finish |
| GateProtocol.LiveInBlock | exchange/cpp/src/gate_connector.cpp:453-553 | the WsClient exists exactly while the IO thread is inside the block that declares it |
| GateProtocol.ReadyMeansLoggedIn | exchange/cpp/src/gate_connector.cpp:456-553 | over every run ws_ready_ is set throughout the receive loop, and while it is set the socket pointer is set too |
| GateProtocol.ReadyIsRaisedByLogin | exchange/cpp/src/gate_connector.cpp:463-468 | only a login that has gone out sets it |
| GateProtocol.DeadSendExactlyWhen | exchange/cpp/src/gate_connector.cpp:546-553 | a send goes through the pointer to a destroyed object if and only if the caller reaches its send between the end of that block and the clearing of the pointer |
| GateProtocol.DeadSendCanHappen | exchange/cpp/src/gate_connector.cpp:453-553 | a concrete schedule in which a request is sent through the dangling pointer and its caller waits for an answer |
| GateProtocol.PendingRequests.Register | exchange/cpp/src/gate_connector.cpp:286-291 | registering adds a fresh unresolved promise under a new id, in step with the protocol's map |
| GateProtocol.PendingRequests.OnResponse | exchange/cpp/src/gate_connector.cpp:581-617 | a response fulfils the promise of its id if it is still there, drops that entry and touches no other, in step with the protocol's lookup and erase |
| GateProtocol.PendingRequests.FailPendingRequests | exchange/cpp/src/gate_connector.cpp:255-264 | every promise in the map gets the exception and the map is cleared, which is a run of the protocol's fail-all |
| Masks.XorTwice | exchange/cpp/src/net_utils.cpp:353-356 | exclusive or with the same number twice gives the number back |
| Masks.XorBits | exchange/cpp/src/net_utils.cpp:353-356 | a bit of the exclusive or is set if and only if the two numbers differ in it |
| WsFrames.MaskTwice | exchange/cpp/src/net_utils.cpp:353-402 | masking with the same key twice is the identity (section 5.3 of RFC 6455) |
| WsFrames.LengthRoundTrip | exchange/cpp/src/net_utils.cpp:332-388 | the length field is read back for every length below 2^64, whatever follows it |
| WsFrames.LengthFormIsShortest | exchange/cpp/src/net_utils.cpp:332-343 | the length form written can hold the length and no shorter form can (section 5.2 of RFC 6455) |
| WsFrames.ClientFrameLayout | exchange/cpp/src/net_utils.cpp:327-358 | a client frame byte by byte: FIN and opcode, mask bit and length (two length bytes most significant first), the mask, and each payload byte combined with its mask byte |
| WsFrames.LongLengthBytes | exchange/cpp/src/net_utils.cpp:338-343 | the eight length bytes of a long frame are worth its length, most significant first |
| WsFrames.FrameRoundTrip | exchange/cpp/src/net_utils.cpp:327-402 | a printed frame parses back to its flag, opcode and payload and leaves exactly what follows, masked or not, if its payload is shorter than 2^31 bytes, and cannot be read otherwise |
| WsMessages.RecvOfSend | exchange/cpp/src/net_utils.cpp:327-419 | recv_frame on the bytes of send_frame returns the opcode and payload and consumes exactly those bytes, for TEXT, BINARY, PING, PONG and CLOSE and every mask, if and only if the payload is shorter than 2^31 bytes |
| WsMessages.FramesDecodeInOrder | exchange/cpp/src/net_utils.cpp:327-419 | concatenated frames decode one per call, in the order sent |
| WsMessages.FragmentsReassemble | exchange/cpp/src/net_utils.cpp:360-419 | a message in any number of fragments, with any masks and nothing between them, decodes to its first opcode and the concatenated payloads (section 5.4 of RFC 6455) |
| WsMessages.InterruptedFrom | exchange/cpp/src/net_utils.cpp:312-419 | from the middle of a message, with any list of pings, pongs and timeouts between its remaining fragments, recv_msg calls return "" once per timeout and once at the end, and answer the pings in order |
| WsMessages.DeliveredIffUninterrupted | exchange/cpp/src/net_utils.cpp:312-419 | a message with a payload is returned by one of its recv_msg calls if and only if nothing comes between its fragments; otherwise they all return "" |
| WsMessages.CloseThrows | exchange/cpp/src/net_utils.cpp:312-325 | a CLOSE frame ends recv_msg with an exception, also in the middle of a message |
| WsMessages.UnknownOpcodeIsSkipped | exchange/cpp/src/net_utils.cpp:312-325 | a frame with an opcode that is not in use is dropped with its payload |
| WsMessages.StreamDelivered | exchange/cpp/src/net_utils.cpp:312-325 | over any stream of pings, pongs, timeouts and messages, interrupted or not, successive recv_msg calls return the payloads of the uninterrupted messages in order and "" for each timeout and each interrupted message, answer every ping once with its payload, in order, and consume exactly the stream |
| WsClient.TlsConn.WriteAll | exchange/cpp/src/net_utils.cpp:113-121 | however the writes are cut up, all bytes go out in order, or the write failed after a prefix |
| WsClient.TlsConn.ReadExact | exchange/cpp/src/net_utils.cpp:123-131 | however the reads are cut up, exactly n bytes come back, or the read fails; from 2^31 on it always fails, because the count is narrowed to 32 bits |
| WsClient.TlsConn.ReadSome | exchange/cpp/src/net_utils.cpp:133-150 | one byte, a timeout or an error |
| WsClient.WsClient.SendFrame | exchange/cpp/src/net_utils.cpp:327-358 | the two writes put exactly one client frame on the wire, with a mask drawn once |
| WsClient.WsClient.RecvFrame | exchange/cpp/src/net_utils.cpp:360-419 | the receive loop gives the specified opcode and payload and leaves exactly the rest of the stream, or throws exactly when the specification does |
| WsClient.WsClient.RecvMsg | exchange/cpp/src/net_utils.cpp:312-325 | the loop returns the specified text, and the bytes it sent are exactly the pongs for the pings it met; it throws only on the specified errors or a failed write |
| OrderGrid.NearIsLinear | core/order_manager.py:148-149 | the percentage test is: the distance is at most 0.0003 times the desired price, floored at 1e-8 |
| OrderGrid.CoveringOrderIsKept | core/order_manager.py:89-121 | a stale order never covers a level, so computing both lists before cancelling is safe |
| OrderGrid.RepostCoversTheGrid | core/order_manager.py:76-121 | after any call every open order is within tolerance of a desired price, and every level with positive price and amount has an open order within tolerance |
| OrderGrid.WhatSurvives | core/order_manager.py:76-121 | the orders that survive a call are exactly those that match a price of either side of the grid and have not been open for longer than the maximum age, if it is positive; they are unchanged, and every other open order is stamped now |
| OrderGrid.NewOrdersAreThePairs | core/order_manager.py:156-172 | a call opens an order of a side, price and amount if and only if the lists of that side pair that price with that amount, both are positive, and no order held, not aged out, is within tolerance of the price |
| OrderGrid.IdsAreNew | core/order_manager.py:237-258 | no id is used twice: what a call leaves open was open before or has one of the ids it took |
| OrderGrid.RepeatIsIdle | core/order_manager.py:76-121 | repeating the same grid with nothing aged out cancels nothing and places nothing |
| OrderGrid.RepostKeepsOk | core/order_manager.py:139-179 | one call on a well-separated grid keeps open orders pairwise more than the tolerance apart, with distinct ids |
| OrderGrid.RunKeepsOk | core/order_manager.py:76-133 | over any run of calls from empty, open orders stay pairwise more than the tolerance apart |
| OrderGrid.AtMostThree | core/order_manager.py:139-179 | at most three orders that far apart are within tolerance of any one price |
| OrderGrid.RunBoundsTheBook | core/order_manager.py:76-133 | over any run at most three open orders sit within tolerance of any price, and after each call there are at most three per level of its grid |
| OrderManager.HasOrderNear | core/order_manager.py:174-179 | true if and only if some listed price is within tolerance |
| OrderManager.OrderManager.CancelOne | core/order_manager.py:229-235 | removes exactly the order with that id and its timestamp |
| OrderManager.OrderManager.CancelStaleByAge | core/order_manager.py:207-227 | removes exactly the orders open longer than the maximum age, none if the maximum is not positive |
| OrderManager.OrderManager.FindStaleOrders | core/order_manager.py:139-154 | lists exactly the open orders that match no desired price |
| OrderManager.OrderManager.FindMissingLevels | core/order_manager.py:156-172 | lists, in order, exactly the pairs of the grid, buys from the buy lists and sells from the sell lists, with no open order within tolerance |
| OrderManager.OrderManager.PlaceOne | core/order_manager.py:237-258 | appends one order with a fresh id, or does nothing for a non-positive price or amount |
| OrderManager.OrderManager.DiffAndRepost | core/order_manager.py:76-121 | one call is one step of the run model and returns exactly the orders placed: those of the pairs of the grid, on their own side, that nothing held is near |
| OrderManager.OrderManager.CancelAll | core/order_manager.py:123-133 | nothing stays open |
| Matching.TakesWhatIsThere | core/fill_simulator.py:144-175 | on a price-sorted book an order takes its amount or the positive quantity on offer at its price or better, whichever is less |
| Matching.DepthIsCrossing | core/fill_simulator.py:144-158 | the depth at a limit counts the asks at or below it for a buy and the bids at or above it for a sell |
| Matching.LeftExceedsDust | core/fill_simulator.py:163-172 | a level left is untouched or holds more than the dust, and levels without quantity stay |
| Matching.DepthAfter | core/fill_simulator.py:156-175 | at every price no better than the order's, the depth goes down by the quantity filled, short by at most one dust remainder |
| Matching.Conserved | core/fill_simulator.py:163-175 | for one order, quantity filled plus quantity left falls short by at most the dust of one dropped level |
| Matching.KthFill | core/fill_simulator.py:88-113 | the k-th order fills its amount or what the depth at its price leaves after the fills before it, up to one dust remainder per earlier order |
| Matching.KthFillExactly | core/fill_simulator.py:88-113 | with dust threshold 0 the k-th fill is exactly min(amount, max(0, D(price) - C)) |
| Matching.PriorityIsKept | core/fill_simulator.py:88-113 | if any order fills, every order before it in the queue filled completely, for any dust threshold |
| Matching.BetterPricesFillFirst | core/fill_simulator.py:88-113 | if any order fills, every order of strictly better price filled completely |
| Matching.AllConserved | core/fill_simulator.py:88-113 | over all orders of a side, filled plus left falls short by at most the dust per dropped level |
| Matching.SortedIsStableSort | core/fill_simulator.py:95-103 | orders are served best price first, the same orders as before, ties in their old order |
| FillSimulator.TryFillBuy | core/fill_simulator.py:129-192 | the loop over the asks, popping and replacing levels in place, leaves and fills what the matching function says |
| FillSimulator.TryFillSell | core/fill_simulator.py:194-258 | the mirror loop over the bids, with the spread less the fee as profit |
| FillSimulator.Simulate | core/fill_simulator.py:66-123 | the fills are those of the sorted buys against the asks, then of the sorted sells against the bids |
| FillSimulator.SimulatedFills | core/fill_simulator.py:66-123 | for one side of a price-sorted book, order by order: the quantity returned is the order's share of the depth after the orders before it, up to dust; it appears as a fill if positive, and then every order before it filled completely |
| FillSimulator.FillsAreOfOpenOrders | core/fill_simulator.py:129-258 | every fill is of an open order of its side, at the order's own price, for a positive quantity of at most its amount, with the fee rate on the notional as fee |
| FillSimulator.ProfitIsCashFlow | core/fill_simulator.py:181-256 | over all fills of a side the fees are the fee rate of the money moved; buys realise nothing, and sells the money they brought in, less the quantity at the mid price, less the fees |
| DepthEngine.RatioIsShare | quant/depth_engine.py:68-77 | for every blend in [0,1] the shares of the levels add up to 1 and do not grow outward |
| DepthEngine.BlendEnds | quant/depth_engine.py:68-76 | the passive share falls by 0.8 from level to level; blend 0 gives the passive shares and blend 1 equal ones |
| DepthEngine.BlendIsStraight | quant/depth_engine.py:76 | between the two ends every level's share changes in proportion to the blend |
| DepthEngine.SidesMirror | quant/depth_engine.py:79-83 | the sell side at a skew has the buy side's budget at the mirrored skew; the buy side has half the total times multiplier and skew, the skew kept in [0.5, 2] |
| DepthEngine.SkewMovesBudget | quant/depth_engine.py:79-83 | a skew above one gives buys more and one below gives sells more; the two sides together spend exactly the total times the multiplier if and only if the skew is within [0.5, 1.5], and more outside |
| DepthEngine.RawSpendsTheBudget | quant/depth_engine.py:79-86 | the raw amounts spend the side budget exactly |
| DepthEngine.EnforceStep | quant/depth_engine.py:89-93 | the in-place loop computes the stepped amounts |
| DepthEngine.SteppedIsSpaced | quant/depth_engine.py:89-93 | every level is only lowered, stays non-negative, and is at least the step below the level before it or zero |
| DepthEngine.SteppedClosedForm | quant/depth_engine.py:89-93 | the loop in closed form: a level keeps max(0, min over j <= i of raw[j] - (i - j) * step) |
| DepthEngine.CeilingIsLeast | quant/depth_engine.py:89-93 | the ceiling used there is that minimum: a lower bound of all the terms, and one of them |
| DepthEngine.SteppedIsGreatest | quant/depth_engine.py:89-93 | no level is lowered more than it has to be: every spaced vector below the raw amounts is below the stepped one |
| DepthEngine.RescaleNeverApplies | quant/depth_engine.py:98-104 | the scaling branch never takes effect |
| DepthEngine.AmountsAreSpaced | quant/depth_engine.py:64-109 | amounts do not grow outward and are at least the minimum order; with a minimum step each drop is at least the step or the outer level is exactly the minimum order |
| DepthEngine.TotalIsBounded | quant/depth_engine.py:95-107 | the total is the lowered amounts plus their shortfalls, so at most the side budget plus the shortfalls of the raw amounts |
| DepthEngine.TotalFitsIff | quant/depth_engine.py:95-107 | without a minimum step the total fits the side budget if and only if the outermost raw amount reaches the minimum order; with one, that is still sufficient |
| DepthEngine.TotalFitsExactlyWhen | quant/depth_engine.py:89-107 | for every minimum step the total fits the side budget if and only if what the minimum order adds is at most what the step took off |
| DepthEngine.SteppedTotalFitsIff | quant/depth_engine.py:89-107 | with a minimum step level i costs max(min_order, min over j <= i of raw[j] - (i - j) * step), and the total fits the side budget if and only if these add up to no more |
| DepthEngine.StepMakesRoom | quant/depth_engine.py:89-107 | an input that does not fit without a step and fits with one, although the outermost raw amount is below the minimum order |
| DepthEngine.BudgetCanBeExceeded | quant/depth_engine.py:95-107 | an input for which the total exceeds the side budget |
| DepthEngine.ComputeAmounts | quant/depth_engine.py:64-109 | the method computes these amounts, branch by branch, from a non-negative side budget |
| RateLimiter.WrappedGrowth | exchange/cpp/include/rate_limiter.h:76-81 | the count narrowed to 32 bits never grows faster than the true one |
| RateLimiter.TryPotential | exchange/cpp/include/rate_limiter.h:72-83 | a turn of the acquire loop never creates tokens beyond those held and the time not yet refilled, and outside the backoff that is less than max + 1 tokens |
| RateLimiter.WindowBound | exchange/cpp/include/rate_limiter.h:36-83 | in every run of shared callers on a steady clock the G grants in any window [s,t] satisfy G * refill < (max + 1) * refill + (t - s) |
| RateLimiter.GrantedExactlyWhen | exchange/cpp/include/rate_limiter.h:36-83 | with tokens in range, outside the backoff a turn is granted if and only if a token is held or one refill interval has passed, while the accrued count fits an int |
| RateLimiter.TokensStayInRange | exchange/cpp/include/rate_limiter.h:36-83 | along events whose accrued counts fit an int the tokens stay in [0, max] |
| RateLimiter.RunGrantsWhenDue | exchange/cpp/include/rate_limiter.h:36-83 | over every run whose accrued counts fit an int the tokens are in [0, max], and outside the backoff a turn is granted if and only if a token is held or an interval has passed since the last refill; when that is, on the clock alone, is in the next rows |
| RateLimiter.EmptyBucketGrantsWhenDue | exchange/cpp/include/rate_limiter.h:36-83 | a call on an empty bucket returns at the first clock reading at which the backoff is over and one interval has passed since the last refill, and at no other, however often it polls; while the counts fit an int |
| RateLimiter.GrantedWhenBackoffEnds | exchange/cpp/include/rate_limiter.h:36-83 | the first call after an error at time h that is the k-th since the last success, with no other calls meanwhile, returns at its first reading from h + min(1000 * 2^k, 32000) ms on, and at no other |
| RateLimiter.PolledWindowBound | exchange/cpp/include/rate_limiter.h:36-83 | the bound from below: in every run, a window of length d outside the backoff in which callers ask at least every gap grants at least d / (refill + gap) - 1 tokens |
| RateLimiter.BurstIsGranted | exchange/cpp/include/rate_limiter.h:25-45 | a new limiter grants its first max turns without a wait |
| RateLimiter.IntervalsFillASecond | exchange/cpp/include/rate_limiter.h:28 | max refill intervals fill one second up to less than a nanosecond each |
| RateLimiter.BackoffDoubles | exchange/cpp/include/rate_limiter.h:49-62 | after k errors since the last success, or since construction, the backoff is min(1000 * 2^k, 32000) ms |
| RateLimiter.NoGrantBeforeBackoffUntil | exchange/cpp/include/rate_limiter.h:72-76 | no turn before the current backoff_until_ grants a token |
| RateLimiter.NoGrantDuringBackoff | exchange/cpp/include/rate_limiter.h:49-76 | after an error at time h that is the k-th since the last success, nothing is granted before h + min(1000 * 2^k, 32000) ms, whatever further errors arrive, until a success is reported |
| RateLimiter.AcquireGrantsOne | exchange/cpp/include/rate_limiter.h:36-45 | a call of acquire is a run of turns that grants one token, at its last turn, or none yet |
| RateLimiter.RateLimiter.Acquire | exchange/cpp/include/rate_limiter.h:36-45 | the waiting loop does exactly those turns and stops at the first that finds a token |
| RateLimiter.RateLimiter.RefillLocked | exchange/cpp/include/rate_limiter.h:72-83 | drains during the backoff, refills with a truncating division afterwards, capped at max |
| RateLimiter.RateLimiter.OnRateLimitHit | exchange/cpp/include/rate_limiter.h:49-55 | doubles the backoff up to 32 s, starts it now and drains the bucket |
| RateLimiter.RateLimiter.OnSuccess | exchange/cpp/include/rate_limiter.h:59-62 | resets the backoff and nothing else |
| TokenBucket.AcquireKeepsValid | safety/rate_limiter.py:33-48 | one acquire keeps the tokens in [0, max] and pays for its token with tokens held or time passed |
| TokenBucket.WaitIsExact | safety/rate_limiter.py:37-41 | after the sleep a whole token is there if and only if the sleep was at least the computed wait |
| TokenBucket.RunKeepsValid | safety/rate_limiter.py:33-48 | tokens are in [0, max] after every acquire of every run |
| TokenBucket.WindowBound | safety/rate_limiter.py:33-48 | the grants in any window of length d are at most max + max * d, over every run |
| TokenBucket.WaitsExactlyWhen | safety/rate_limiter.py:33-48 | the other direction: over every run a call waits if and only if granting it at once would put more than max + max * d grants into some window of length d that begins at an earlier grant |
| TokenBucket.LastGrantIsLatest | safety/rate_limiter.py:33-48 | grant times never go back, so the calls granted in a window are consecutive |
| TokenBucket.RateLimiter.Acquire | safety/rate_limiter.py:33-42 | one call refills, waits if less than one token is there, refills again and takes one |

## Left out

- The exact values of the small guards of the HMM code (1e-300 for zero sums and for the reset of the belief, 1e-10 as least probability): they are arbitrary positive constants, so every result holds for the code's values too.
- Floating point: Python floats and C++ doubles are real numbers here, so rounding, overflow and NaN are not modelled.
- Weak memory: atomics are sequentially consistent; fences and memory orders are not modelled.
- What a send through the dangling `ws_ptr_` does: it is undefined in C++. The model marks it (`GateProtocol.DeadSendExactlyWhen`) and lets it go out or throw.
- The IO thread's own sends (subscriptions, heartbeats and pongs), which do not take `ws_send_mutex_` and can meet a caller's send on the same socket: frames are written one at a time here.
- Request ids that wrap around 64 bits.
- The logarithm is a parameter, and that Baum-Welch never lowers the likelihood is not stated.
- The feature discretisation, `get_regime`, `get_mm_parameters` and the size helpers of the buffers: single expressions.
- Balance updates in `gate_connector.cpp:708-711`, which call `load()` from the writer thread: the double buffer is modelled under its documented single-reader rule only.
- Agreement of the consumer map with the exchange after a reconnect: the bootstrap only adds OPEN events.
- The readiness wait in `connect()`, subscription messages and the reconnect delay: the protocol model keeps only the flag.
- SpscQueue.Ring.Push: states the uninterrupted call; interleaved calls are the step-wise lemmas of the same module.
- SpscQueue.Ring.Pop: states the uninterrupted call, as for Push.
- OrderEvents.OrderFeed.OnOrderMsg: states the pushes without concurrent pops; with them, the step-wise lemmas of `SpscQueue`.
- OrderEvents.OrderFeed.FetchOpenOrders: states the drain without concurrent pushes, on a connected connector; with pushes, `OrderEvents.DrainIsFold`.
- AtomicDoubleBuffer.Buffer.Load: states the uninterrupted call; interleaved loads are `AtomicDoubleBuffer.LoadsAreWholeAndFresh`.
- AtomicDoubleBuffer.Buffer.Store: states the uninterrupted call.
- Seqlock.Buffer.Load: states the call without a concurrent store; with one, `Seqlock.EvenLoadsAreWhole`.
- Seqlock.Buffer.Store: states the uninterrupted call.
- GateProtocol.PendingRequests.OnResponse: a promise that already has a state does not occur there, so the exception of `set_value` is a precondition of Promise.Set.
- Sockets, TLS, the HTTP upgrade and response parser, JSON, HMAC and base64: foreign libraries; bytes, masks, clock readings and socket waits are parameters.
- WsClient.TlsConn.ReadSome: the request size is the one byte that the receive loop asks for.
- WsClient.WsClient.RecvMsg: the stream position after an exception is not stated, because the caller drops the connection.
- OrderManager.OrderManager.DiffAndRepost: states dry-run mode, with one clock reading per call.
- Live mode of the order manager (exchange prices, adopted orders without timestamps), database writes and its own rate limiter: each method is atomic, reads the clock once, and ids are fresh.
- OrderManager.OrderManager.FindMissingLevels: open prices are a list rather than a dictionary keyed by price; repeated prices do not change the answer.
- FillSimulator.TryFillBuy: time stamps and the exchange name are dropped from the fill.
- FillSimulator.TryFillSell: time stamps and the exchange name are dropped from the fill.
- FillSimulator.Simulate: time stamps, exchange names and logging are dropped from the fills.
- DepthEngine.ComputeAmounts: the power of the clipped aggressiveness is a parameter in [0,1], and at least one level is asked for.
- `PaperTrader`, which keeps filled orders open: fills across several books are not bounded by one order's amount.
- RateLimiter.WindowBound: a token count that overflows 32 bits is taken to wrap around in two's complement.
- RateLimiter.RateLimiter.Acquire: the endless loop is run on a finite list of clock readings and reports whether a token was found among them.
- Spread, skew, rebalancing, circuit breaker, regime reconciliation, the other connectors, the dashboard and the scripts: branch facts and plumbing.
