# CoroPact in Dafny

A model of the parts of CoroPact that are hard to get right, and proofs about them: the intrusive red-black tree and
4-ary heap, the bounded queue and the mailbox on top of it, the io_uring stream, timer queue and ready scheduler, the
HTTP/1.1 request parser and the upstream request that the gateway writes, the load balancers, the circuit breaker, the
rate limiter, the block-chained buffer and the forwarding loop. `dafny verify dfyconfig.toml` checks everything.

How things are modelled:

- Code that changes objects is a class with the source's fields and loops. Each method is proved against a function of
  the old state or states the new contents outright; what the source promises is then proved about those functions.
- Lock-free code and completion-driven code is a state machine: a step function over explicit actions, and theorems for
  every run. Every atomic operation is one step of one of any number of threads, interleaved in sequentially consistent
  order; counters and positions do not wrap, except where the source's unsigned subtraction matters (the breaker).
- The kernel, clocks, hash functions, buffer contents, peers' behaviour and what callbacks or resumed work do are
  parameters or actions of an environment that may choose anything. Clocks are monotone where a lemma says so, and a
  timeout does not expire before its deadline.
- Rates and bursts are reals with the source's truncation to millionths of a token. Bytes of HTTP messages are characters.
- The words of HTTP are fields of two records, so that lemmas do not depend on their spelling; `HttpWords` gives them.
- The order of the red-black tree is a strict total order, as its search requires; the heap compares ranks.

What came out false of the code, with the exact condition under which it holds:

- The bounded queue admits capacity one and loses values there; it is safe exactly from capacity two on
  (`BoundedQueue.IntactIffCapacity`).
- A request that exactly reaches the caps of the parser is accepted in one piece and refused in two; a request can be cut
  anywhere exactly if it is strictly inside (`HttpFraming.SafeIffStrict`).
- A request without headers is not complete after its empty line. It is exactly if a third line end follows; otherwise
  the empty line is taken for a header line (`HttpWords.WithoutHeaders`).
- A client whose Connection header names content-length makes the gateway forward a body without a length
  (`GatewayRoundTrip.ForwardedReparses`, `GatewayRoundTrip.BodyLost`).
- When virtual nodes of two peers collide, removing a third peer may move keys between them, because the sort is not
  stable (`HashRing.StaysPutIffApart`).
- A timer that is added while the compatibility timeout is in flight with a later deadline, and the driver does not
  help, is woken too late (`TimerQueue.AddInTime`). As long as no caller or callback adds such a timer, all timers are
  woken in time throughout a run, and if callbacks add none, exactly as long (`TimerPunctuality.AlwaysInTime`,
  `TimerPunctuality.InTimeIffMild`). It cannot happen before the kernel has refused an update, and can always happen
  after (`TimerQueue.SupportedInTime`, `TimerQueue.UnsupportedLate`).
- The breaker lets probes through only while it is half-open exactly if at most one thread uses it or no probes are
  configured, and waits out its timeout exactly if at most one thread uses it or the timeout is not positive
  (`BreakerConditions.ProbesOnlyHalfOpen`, `BreakerConditions.ProbesAfterTimeout`).
- The Maglev table that a balancer keeps need not be the one of the peers that are available now, because two sets of
  peers can share a fingerprint. For names over given characters it always is, exactly if a colon, a semicolon and a
  digit are not all among them (`MaglevFingerprints.CurrentIffCharacters`); for a class of names that contains the parts
  of its names, exactly if none of them is ambiguous (`MaglevFingerprints.CurrentIffUnambiguous`). Every ambiguous name
  can do harm (`MaglevFingerprints.AmbiguousHarms`, `MaglevBalancer.StaleSelection`).
- Headers that the Connection header names do not reach the peer, except that a named Host still shows as
  X-Forwarded-Host: the peer gets the same headers exactly if the Host is the same
  (`GatewayNomination.NominatedForwarded`, `GatewayNomination.HostStillSeen`).
- A client that polls its empty bucket at a fixed step is ever served exactly if one step yields a millionth of a token
  (`RateLimiter.PollingServedIff`).

## Model

| member | source | states |
|---|---|---|
| `RedBlackTree.IntrusiveRBTree.Insert` | include/coropact/ds/intrusive_rbtree.h:434-505 | A valid tree (search order, parent links, black root, no red node under a red one, equal black heights, size, cached root and minimum) stays valid; it returns false and changes nothing exactly when the element is linked, and otherwise the in-order sequence is the old one with the element put in once |
| `RedBlackTree.IntrusiveRBTree.Erase` | include/coropact/ds/intrusive_rbtree.h:605-739 | Validity is kept; it returns false and changes nothing exactly when the element is not linked, and otherwise the in-order sequence loses exactly that element and keeps the order of the others |
| `RedBlackTree.IntrusiveRBTree.InsertFixup` | include/coropact/ds/intrusive_rbtree.h:360-431 | From a tree whose only fault is a red node under a red parent, the loop ends in a balanced tree with a black root, the same in-order sequence and untouched caches |
| `RedBlackTree.IntrusiveRBTree.DeleteFixup` | include/coropact/ds/intrusive_rbtree.h:511-602 | From a tree that lacks one black node on one side, the loop ends in a balanced tree with a black root and the same in-order sequence |
| `RedBlackTree.IntrusiveRBTree.Transplant` | include/coropact/ds/intrusive_rbtree.h:318-331 | The hooks afterwards are the old ones with one subtree put in the place of another |
| `RedBlackTree.IntrusiveRBTree.LeftRotate` | include/coropact/ds/intrusive_rbtree.h:335-344 | The hooks afterwards are those of the rotated tree and no other hook changes |
| `RedBlackTree.IntrusiveRBTree.RightRotate` | include/coropact/ds/intrusive_rbtree.h:347-356 | The mirror image of the left rotation |
| `RedBlackTree.IntrusiveRBTree.RecolourUp` | include/coropact/ds/intrusive_rbtree.h:388-395 | With a red uncle the recolouring moves the fault two levels up and keeps the store in step with the tree |
| `RedBlackTree.IntrusiveRBTree.StraightenUp` | include/coropact/ds/intrusive_rbtree.h:396-401 | The inner grandchild is rotated into a straight line; the store holds the straightened tree |
| `RedBlackTree.IntrusiveRBTree.LineUp` | include/coropact/ds/intrusive_rbtree.h:403-406 | Recolouring and rotating a straight line leaves the store holding the repaired tree |
| `RedBlackTree.IntrusiveRBTree.DeleteStep` | include/coropact/ds/intrusive_rbtree.h:534-557 | One round with a black sibling repairs the deficit or moves it one level up, and keeps the in-order sequence |
| `RedBlackTree.IntrusiveRBTree.RaiseRedSibling` | include/coropact/ds/intrusive_rbtree.h:523-530 | A red sibling is rotated up, so that the deficit faces a black sibling |
| `RedBlackTree.IntrusiveRBTree.RaiseNearNephew` | include/coropact/ds/intrusive_rbtree.h:541-548 | A red near nephew is rotated into the far position |
| `RedBlackTree.IntrusiveRBTree.RaiseSibling` | include/coropact/ds/intrusive_rbtree.h:550-556 | A red far nephew pays for the deficit by one rotation |
| `RedBlackTree.IntrusiveRBTree.PayDeficit` | include/coropact/ds/intrusive_rbtree.h:601 | A deficit at a red node or at the root is paid by painting that node black |
| `RedBlackTree.IntrusiveRBTree.Search` | include/coropact/ds/intrusive_rbtree.h:463-474 | The descent ends at the empty place where the new element belongs in the order |
| `RedBlackTree.IntrusiveRBTree.Link` | include/coropact/ds/intrusive_rbtree.h:475-487 | The new red node hangs at that place and the store holds the enlarged tree |
| `RedBlackTree.IntrusiveRBTree.UpdateMinimum` | include/coropact/ds/intrusive_rbtree.h:489-491 | The cached minimum becomes the new element exactly when there was none or it is smaller |
| `RedBlackTree.IntrusiveRBTree.Minimum` | include/coropact/ds/intrusive_rbtree.h:270-277 | It returns the end of the left spine, the first element of the subtree in order |
| `RedBlackTree.IntrusiveRBTree.Next` | include/coropact/ds/intrusive_rbtree.h:280-291 | It returns the first element after the node in the in-order sequence of the whole tree, or the sentinel |
| `RedBlackTree.IntrusiveRBTree.AdvanceMinimum` | include/coropact/ds/intrusive_rbtree.h:631-633 | Erasing the cached minimum moves the cache to its successor, and erasing anything else leaves it |
| `RedBlackTree.IntrusiveRBTree.SpliceOut` | include/coropact/ds/intrusive_rbtree.h:645-662 | A node with at most one child is replaced by that child |
| `RedBlackTree.IntrusiveRBTree.ReplaceBySuccessor` | include/coropact/ds/intrusive_rbtree.h:663-715 | A node with two children is replaced by its successor, which takes over its place and its colour |
| `RedBlackTree.IntrusiveRBTree.Unlink` | include/coropact/ds/intrusive_rbtree.h:645-719 | Whatever its number of children, the node leaves the in-order sequence and the tree lacks a black node exactly where the caller is told |
| `RedBlackTree.IntrusiveRBTree.Earliest` | include/coropact/ds/intrusive_rbtree.h:190 | It returns the first element of the in-order sequence, or the sentinel for an empty tree |
| `RedBlackTree.IntrusiveRBTree.PopWhile` | include/coropact/ds/intrusive_rbtree.h:742-752 | It takes out the longest prefix of the in-order sequence that satisfies the predicate, in order, and keeps the rest |
| `RedBlackBalance.HeightLogarithmic` | include/coropact/ds/intrusive_rbtree.h:857-892 | A tree that passes the checker's colour and black-height rules has a height of at most twice the binary logarithm of its size plus one |
| `BoundedQueue.ExecInv` | include/coropact/ds/mpsc_bounded_queue.h:59-133 | Every interleaving of any number of threads, step by step, keeps the invariant that ties cells, sequence numbers, positions and program counters together |
| `BoundedQueue.PoppedInOrder` | include/coropact/ds/mpsc_bounded_queue.h:59-133 | In every interleaving popped values are the pushed values by reservation order, each position at most once, and a claimed position that has not been read is about to be read by its claimant |
| `BoundedQueue.ReadsPublished` | include/coropact/ds/mpsc_bounded_queue.h:95-133 | No cell is read before its value was published, and no push is writing to it then |
| `BoundedQueue.WritesFree` | include/coropact/ds/mpsc_bounded_queue.h:59-93 | No cell is overwritten before the pop of its previous position has finished with it |
| `BoundedQueue.FullReport` | include/coropact/ds/mpsc_bounded_queue.h:83-84 | Full is reported only if all positions are held or the pop of the blocking position is still in progress |
| `BoundedQueue.EmptyReport` | include/coropact/ds/mpsc_bounded_queue.h:119-120 | Empty is reported only if nothing is held or the push of the next position is still in progress |
| `BoundedQueue.DoneReport` | include/coropact/ds/mpsc_bounded_queue.h:90-132 | A finished push has put its value at its position, and a finished pop returns the value pushed at its position |
| `QueueCalls.LoneTryPush` | include/coropact/ds/mpsc_bounded_queue.h:59-93 | After every run of any threads, a push that nobody interrupts goes through exactly if a position is free and the pop that used its cell is over: its value is the next reserved and stands in its cell; otherwise it reports full and has changed nothing |
| `QueueCalls.LoneTryPop` | include/coropact/ds/mpsc_bounded_queue.h:95-133 | After every run, a pop that nobody interrupts returns the oldest value exactly if its push is over, and leaves its cell to the position one round later; otherwise it reports empty and has changed nothing |
| `BoundedQueue.OneConsumerFifo` | include/coropact/ds/mpsc_bounded_queue.h:95-133 | With one consumer the popped values are exactly a prefix of the reservation order |
| `BoundedQueue.CapacityOneLosesValue` | include/coropact/ds/mpsc_bounded_queue.h:37-40 | With capacity one, which the class admits, a second push overwrites a value nobody has popped |
| `BoundedQueue.IntactIffCapacity` | include/coropact/ds/mpsc_bounded_queue.h:37-40 | No run loses a value if and only if the capacity is at least two |
| `Mailbox.NoLostNotification` | include/coropact/luring/mailbox.h:37-105 | In every interleaving of pushes and drains, for every queued message its producer has not reached its flag exchange, or the consumer is draining, or a notification is owed or in flight |
| `Mailbox.QuietMeansEmpty` | include/coropact/luring/mailbox.h:68-105 | When all calls have returned, all notifications are delivered and the consumer sleeps, the mailbox is empty |
| `Mailbox.QueueInv` | include/coropact/luring/mailbox.h:37-105 | The queue inside the mailbox is in a state that the queue's own invariant admits, in every run |
| `MailboxOrder.HandledInOrder` | include/coropact/luring/mailbox.h:68-105 | In every run the messages handled are the first ones in the order in which their positions were reserved, each once, and at most one more has been claimed |
| `MailboxOrder.AllHandled` | include/coropact/luring/mailbox.h:37-105 | When everything is quiet, every message that was taken in has been handled, in that order |
| `MailboxDrain.DrainHandlesAll` | include/coropact/luring/mailbox.h:68-105 | From every state of every run in which no push is under way the loop alone comes to sleep, and if it was popping it has then handled every message that was taken in, in order |
| `HttpFraming.DoneExtends` | src/http/http_parser.cc:25-77 | A buffer that parses to a complete request of n bytes parses to the same request and the same n whatever follows it |
| `HttpFraming.FramePrefix` | src/http/http_parser.cc:25-77 | Strictly inside the caps a shorter buffer yields the request if it holds all of it and asks for more otherwise |
| `HttpFraming.SafeIffStrict` | src/http/http_parser.cc:32-51 | No proper prefix of a complete request is refused if and only if the request is strictly inside the caps that count line ends |
| `HttpFraming.UnsafeCut` | src/http/http_parser.cc:32-51 | At the caps there is a cut at which a request that is accepted in one piece is refused |
| `HttpFraming.SplitIndependence` | src/http/http_parser.cc:20-77 | However a stream of pipelined requests inside the caps is cut into chunks, the same requests come out in the same order; it ends in a bad request in both cases or in neither, and if in neither the same bytes are left |
| `HttpFraming.HeadersKeep` | src/http/http_parser.cc:54-64 | Whatever every header line keeps, the loop over the header lines keeps |
| `HttpRendering.RenderFrame` | src/http/http_parser.cc:25-77 | For text put together from a request line, header lines and a body, the parser's answer is what the lines mean one by one |
| `HttpRendering.NoHeaders` | src/http/http_parser.cc:43-77 | A request line, an empty line and then whatever arrives, for every reader that refuses an empty header line: complete with the empty header table if a line end comes next, refused as soon as a blank line is there, and otherwise waiting, up to the cap |
| `HttpWords.WithoutHeaders` | src/http/http_parser.cc:43-77 | For HTTP such a request is complete if and only if a third line end follows; otherwise the empty line is taken for a header line, so a later blank line makes it a bad request |
| `HttpWords.HttpWithoutHeaders` | src/http/http_parser.cc:43-77 | The same for the words that the parser uses |
| `HttpGrammar.ParsedWell` | src/http/http_parser.cc:160-217 | Every accepted request has a known method, a target without spaces, trimmed lower-case header fields without line breaks, no transfer-encoding, at most one content-length that is within the cap, and a body of exactly that length |
| `HttpGrammar.RequestLineWell` | src/http/http_parser.cc:160-183 | An accepted request line yields a path without spaces or question marks and a query without spaces |
| `HttpGrammar.BadLineIff` | src/http/http_parser.cc:160-183 | A request line is a bad request if and only if it does not have two spaces |
| `UpstreamRoundTrip.LineAnswers` | src/http/http_parser.cc:160-183 | A request line with two spaces is refused for an unknown method, then for an unknown version, and otherwise gives the method, the version and the two parts of the target, whatever the parts are |
| `HttpMessage.NumeralRead` | src/http/http_parser.cc:206-210 | Every decimal numeral, with any leading zeros, is read as its number if that fits 64 bits and refused otherwise |
| `HttpGrammar.HeaderLineWell` | src/http/http_parser.cc:185-217 | Every accepted header line keeps the facts about the header table and the announced length |
| `HttpGrammar.SplitFieldWell` | src/http/http_parser.cc:190-199 | Cutting a header line at its first colon yields a lower-case name and a trimmed value without line breaks |
| `HttpFields.SplitFieldText` | src/http/http_parser.cc:190-199 | Cutting undoes writing: a field written as name, colon, space and value comes back as it was |
| `HttpFields.FoldReads` | src/http/http_parser.cc:185-217 | The parser accepts a list of distinct sound fields if and only if it fits the caps on count, line length and total size, and then reads every field |
| `HttpFields.AcceptedIff` | src/http/http_parser.cc:54-64 | Header lines, whatever they are, are accepted if and only if they are not too many, none of them nor all together are too long, each is a field, none announces a transfer encoding, and at most one announces a length, which is within the cap |
| `HttpFields.FirstStands` | src/http/http_request.cc:25-34 | Of several headers with one name the first one's value stands in the table, and nothing is in the table but what came in a line |
| `HttpSession.HttpParser.constructor` | include/coropact/http/http_parser.h:18-46 | A new parser holds no bytes and nothing of a request |
| `HttpSession.HttpParser.Feed` | src/http/http_parser.cc:20-23 | Feeding appends the bytes and answers for the whole pending text; a finished request that was not taken stays |
| `HttpSession.HttpParser.ParseAvailable` | src/http/http_parser.cc:25-77 | The answer is a function of the pending bytes alone: a complete request is taken off their front with its length and contents, and otherwise the bytes stay as they are |
| `HttpSession.HttpParser.ParseRequestLine` | src/http/http_parser.cc:160-183 | The method with its early returns computes the request-line function, errors included |
| `HttpSession.HttpParser.ParseHeaderLine` | src/http/http_parser.cc:185-217 | The counters, the length flag and the header table move as the header-line function says, with the same error in every failing case |
| `HttpSession.HttpParser.ParseHeaderLines` | src/http/http_parser.cc:53-64 | The loop over the header lines computes the fold of the header-line function |
| `HttpSession.HttpParser.TakeRequest` | src/http/http_parser.cc:79-83 | The request is handed over and the parser is reset without losing pending bytes |
| `HttpSession.HttpParser.Reset` | src/http/http_parser.cc:85-92 | Everything but the pending bytes is reset |
| `HttpSession.Receive` | include/coropact/gateway/gateway_session_service.h:107-128 | One read of a session hands over the complete requests in order up to the first whose handler ends the connection; the connection stays open exactly if no handler ended it and what is left is an unfinished request, which then stays pending |
| `HttpSession.Serve` | include/coropact/gateway/gateway_session_service.h:100-128 | Wherever a stream inside the caps is cut, the session handles exactly its requests, in order, up to the first whose handler ends the connection, and is open afterwards exactly if no handler ended it and the stream does not end in a bad request |
| `HttpText.LowerCopy` | src/http/header_utils.h:34-41 | The copy has the same length and every letter is the lower-case one |
| `HttpText.TrimTrimmed` | src/http/header_utils.h:51-58 | Trimming removes spaces at both ends and leaves trimmed text alone |
| `UpstreamRequest.AsciiCaseEqual` | src/gateway/proxy_pass.cc:14-24 | The loop decides equality up to the case of ASCII letters |
| `UpstreamRequest.NamedByConnection` | src/gateway/proxy_pass.cc:26-41 | The loop decides whether some comma-separated token, stripped of blanks, is the name, whatever the case |
| `UpstreamWriter.BuildRequest` | src/gateway/proxy_pass.cc:177-263 | The text written is the request line, the forwarded fields in the order of the walk, the gateway's own fields and the body, put together by the rendering that the parser is proved against |
| `UpstreamWriter.AppendClient` | src/gateway/proxy_pass.cc:196-217 | The walk over the headers forwards exactly the ones that pass and are not replaced, and sets the three extended values aside |
| `UpstreamWriter.AppendOwn` | src/gateway/proxy_pass.cc:219-258 | The gateway's six headers are written with the client's value, the gateway's, both joined, or not at all, as the four cases say |
| `UpstreamRequest.FieldsDistinct` | src/gateway/proxy_pass.cc:196-261 | No header name is written twice |
| `UpstreamRoundTrip.FieldsEndToEnd` | src/gateway/proxy_pass.cc:196-261 | The header table the peer sees has every forwardable client header with its value, each of the gateway's own headers exactly if it has a value and with that value, and nothing else |
| `UpstreamRoundTrip.TrailsGrow` | src/gateway/proxy_pass.cc:219-256 | The peer sees the x-forwarded-for that came followed by the client's address, and the via that came followed by this gateway, each part only if there is one; a request number that the client gave is left as it is |
| `UpstreamRoundTrip.NominatedUnseen` | src/gateway/proxy_pass.cc:196-261 | For any set of named headers: two requests that differ only in those give the peer the same header table if and only if they have the same Host, which is written as X-Forwarded-Host in any case; no other named header shows, not even as part of one that the gateway extends |
| `GatewayNomination.NominatedForwarded` | src/gateway/proxy_pass.cc:177-261 | For any two byte strings that parse, with the same Connection header and the same of every header it does not name: the peer gets the same header table if and only if the Host headers are the same, which they are unless that Connection header names host |
| `GatewayNomination.HostStillSeen` | src/gateway/proxy_pass.cc:196-261 | Two requests with the header Connection: host and different hosts give the peer different header tables |
| `UpstreamRoundTrip.UpstreamLineReads` | src/gateway/proxy_pass.cc:181-188 | The written request line parses to the same method, path or slash, and query, with version 1.1 |
| `UpstreamRoundTrip.RoundTrip` | src/gateway/proxy_pass.cc:177-263 | For any proper set of protocol words, re-parsing the written request gives back the request line, the body and exactly that header table, with nothing left over, if and only if it fits the caps and a body's length header is not taken away |
| `UpstreamRoundTrip.BodyCutOff` | src/gateway/proxy_pass.cc:196-263 | If the length header is taken away and the lines fit, the peer reads a request without a body and the whole body is left over |
| `HttpWords.ProperHttp` | src/gateway/proxy_pass.cc:43-56 | The words that parser and printer actually use are such a proper set |
| `GatewayRoundTrip.ForwardedReparses` | src/gateway/proxy_pass.cc:177-263 | For every byte string that parses, every header order and every clean context: the peer's parser consumes the whole written request and finds the same method, target and body, the client's end-to-end headers, the gateway's own with their values and no other, if and only if the lines fit the caps and a request with a body does not nominate content-length |
| `GatewayRoundTrip.Unfaithful` | src/gateway/proxy_pass.cc:196-199 | For every request with a body that nominates content-length and every clean context the peer does not get the request; if the lines fit the caps it reads an empty body and the whole body is left over |
| `GatewayRoundTrip.BodyLost` | src/gateway/proxy_pass.cc:196-199 | A POST with a body of one byte whose Connection header names content-length is read by the peer as a request with an empty body, and that byte is left over |
| `Primes.IsPrime` | include/coropact/gateway/load_balancer.h:616-624 | Trial division by 2, 3 and 6k plus or minus 1 decides primality |
| `Primes.NextPrime` | include/coropact/gateway/load_balancer.h:626-631 | The search ends, at the least prime that is no smaller than its argument |
| `Primes.PrimeAbove` | include/coropact/gateway/load_balancer.h:626-631 | There is a prime above every number, so that search cannot run forever |
| `Primes.PrimeProduct` | include/coropact/gateway/load_balancer.h:568-576 | A prime does not divide the product of two smaller positive numbers |
| `Maglev.WalkCovers` | include/coropact/gateway/load_balancer.h:568-576 | With a prime table size the walk of every backend reaches every slot |
| `Maglev.SlotsDiffer` | include/coropact/gateway/load_balancer.h:568-576 | The walk does not repeat a slot before it has visited all of them |
| `Maglev.Probe` | include/coropact/gateway/load_balancer.h:570-574 | The inner probe ends, at the first slot of the backend's own order that is free, although it starts where it stopped the last time |
| `Maglev.BuildTable` | include/coropact/gateway/load_balancer.h:529-582 | Turn by turn every slot is claimed by backend t mod n as the first that is free for it, and the table holds its peer there; without backends the table is empty |
| `Maglev.PlayedUnique` | include/coropact/gateway/load_balancer.h:564-579 | That rule determines the table |
| `Maglev.NoSlotEmpty` | include/coropact/gateway/load_balancer.h:564-579 | The finished table has no empty slot and every entry is the peer of a backend |
| `Maglev.EvenShares` | include/coropact/gateway/load_balancer.h:564-579 | Logical backend b of n owns m / n slots and one more if b < m mod n: no two differ by more than one |
| `Maglev.BalancedTable` | include/coropact/gateway/load_balancer.h:564-579 | In the table that is built, the slot counts of any two logical backends differ by at most one, and every slot a backend claimed holds its peer |
| `MaglevPeers.ExpandPeers` | include/coropact/gateway/load_balancer.h:535-559 | The list has the available peers in order, each as often in a row as it weighs, at least once, every time with the offset and skip of that replica |
| `MaglevPeers.WeightedShares` | include/coropact/gateway/load_balancer.h:545-579 | In the table built for distinct peers, the number of slots that hold a peer of weight w is between w * (m / n) and w * (m / n) + w, n being the number of logical backends |
| `MaglevPeers.OthersOwnNothing` | include/coropact/gateway/load_balancer.h:535-579 | Every slot holds an available peer |
| `MaglevBalancer.MaglevLB.Lookup` | include/coropact/gateway/load_balancer.h:609-614 | A lookup gives the peer of the backend in whose turn the slot of the hash was claimed, one of those the table was built for, and nothing exactly if there were none |
| `MaglevBalancer.MaglevLB.Select` | include/coropact/gateway/load_balancer.h:482-500 | Nothing exactly if no peer is available. Otherwise the table stays as it is if the available peers have the fingerprint of those it was built for and is rebuilt for them if not, and the answer is its answer; as long as no name is ambiguous the table is that of the available peers and the answer is available |
| `MaglevBalancer.MaglevLB.ComputeFingerprint` | include/coropact/gateway/load_balancer.h:515-527 | The loop prints the names and weights of the available peers in order |
| `MaglevBalancer.StaleSelection` | include/coropact/gateway/load_balancer.h:482-500 | Two selections, for every name that splits into the label of another peer and a name: the second finds only those two peers available and gets the peer that is not |
| `MaglevFingerprints.FingerprintInjective` | include/coropact/gateway/load_balancer.h:515-527 | For any class of weights: equal fingerprints mean equal peers, names and weights, if no name looks like the label of another peer up to some place |
| `MaglevFingerprints.FingerprintsClash` | include/coropact/gateway/load_balancer.h:515-527 | A peer whose name does look like that has the fingerprint of the two peers that it splits into |
| `MaglevFingerprints.CurrentIffDistinct` | include/coropact/gateway/load_balancer.h:482-500 | After every history of availability the table in use is that of the available peers, if and only if no two conditions of the peers share a fingerprint |
| `MaglevFingerprints.CurrentIffUnambiguous` | include/coropact/gateway/load_balancer.h:482-500 | For a class of names that contains the parts of its names: that holds for all peers with names of the class if and only if none of the names is ambiguous |
| `MaglevFingerprints.CurrentIffCharacters` | include/coropact/gateway/load_balancer.h:482-527 | For peers as the configuration admits them, with names over given characters, it holds if and only if a colon, a semicolon and a digit are not all among these |
| `MaglevFingerprints.AmbiguousHarms` | include/coropact/gateway/load_balancer.h:482-527 | Every peer with an ambiguous name that the configuration admits can be configured together with others so that after two calls the table is one for peers none of which is available |
| `HashRing.Lookup` | include/coropact/gateway/load_balancer.h:437-447 | Binary search with wrap-around returns the peer of the node that is nearest clockwise among all nodes, and nothing for an empty ring |
| `HashRing.SuccessorNearest` | include/coropact/gateway/load_balancer.h:437-447 | The cyclic successor in the sorted ring is the node at the least clockwise distance |
| `HashRing.NearestUnique` | include/coropact/gateway/load_balancer.h:395-402 | Distinct hashes leave one nearest node |
| `HashRing.ApartStays` | include/coropact/gateway/load_balancer.h:367-403 | When no two other peers share a hash, removing a peer moves only its own keys and adding one moves keys only to it |
| `HashRing.CollisionMoves` | include/coropact/gateway/load_balancer.h:390-402 | If two other peers share a hash, there are rings after sorting and deduplicating in which a key moves between peers that both stay, when the peer leaves and when it joins |
| `HashRing.StaysPutIffApart` | include/coropact/gateway/load_balancer.h:367-403 | For every way the unstable sort may resolve collisions: when a peer leaves only its own keys move, if and only if no two other peers share a virtual node's hash; and when it joins keys move only to it, under the same condition exactly |
| `SmoothRoundRobin.SmoothWeightedRoundRobin.Select` | include/coropact/gateway/load_balancer.h:111-141 | The two loops pick the peer and move the running weights as the selection functions say, and change nothing when no weight is available |
| `SmoothRoundRobin.SmoothWeightedRoundRobin.TotalWeight` | include/coropact/gateway/load_balancer.h:116-121 | The first loop adds up the positive effective weights of available peers |
| `SmoothRoundRobin.SmoothWeightedRoundRobin.CreditAll` | include/coropact/gateway/load_balancer.h:123-137 | The second loop credits every available peer and finds the first with the greatest running weight |
| `SmoothRoundRobin.SelectionIsTurn` | include/coropact/gateway/load_balancer.h:111-141 | A selection credits everybody, picks an available peer with the greatest running weight and charges it the total |
| `SmoothRoundRobin.AlwaysBalanced` | include/coropact/gateway/load_balancer.h:111-141 | In every run, whatever happens to weights and availability, the running weights add up to zero |
| `SmoothRoundRobin.NeverAhead` | include/coropact/gateway/load_balancer.h:111-141 | With constant weights of total W, k selections from the zero state pick peer i fewer than k*w_i/W + 1 times |
| `SmoothRoundRobin.OneCycle` | include/coropact/gateway/load_balancer.h:111-141 | W selections pick every peer exactly as often as it weighs, and the running weights return to zero |
| `SmoothRoundRobin.RepeatedSelection` | include/coropact/gateway/load_balancer.h:111-141 | Selecting k times with the same peers is a history of such turns |
| `CircuitBreaker.ExecInv` | include/coropact/gateway/circuit_breaker.h:85-238 | Every interleaving of atomic steps keeps the breaker's invariant |
| `CircuitBreaker.OnlyLegalTransitions` | include/coropact/gateway/circuit_breaker.h:30-34 | In every interleaving the published states follow Closed to Open, Open to HalfOpen, HalfOpen to Open and HalfOpen to Closed only, and the transition counter counts them |
| `CircuitBreaker.OneOwner` | include/coropact/gateway/circuit_breaker.h:85-238 | A transition in progress has exactly one owner, and a stable state has none |
| `CircuitBreaker.ProbesBounded` | include/coropact/gateway/circuit_breaker.h:112-121 | Between publishing HalfOpen and leaving it, and between any two resets of the request counter, at most the configured number of probes is admitted, a negative number counting as its 64-bit value |
| `BreakerCalls.Alone` | include/coropact/gateway/circuit_breaker.h:85-238 | A thread that nobody interrupts returns from its call, from every state, at the same time and without moving any other thread |
| `BreakerCalls.LoneFailureClosed` | include/coropact/gateway/circuit_breaker.h:214-237 | The state after an uninterrupted failure of the closed breaker: the failures counted up, the successes in a row forgotten, and the whole transition to Open at the current time exactly if the count reaches the threshold |
| `BreakerCalls.LoneSuccessClosed` | include/coropact/gateway/circuit_breaker.h:156-172 | The state after an uninterrupted success of the closed breaker: failures are forgiven only when the threshold of successes in a row is reached |
| `BreakerCalls.LoneFailureHalfOpen` | include/coropact/gateway/circuit_breaker.h:200-211 | After an uninterrupted failure the half-open breaker has opened at the current time with every counter of the cycle reset |
| `BreakerCalls.LoneSuccessHalfOpen` | include/coropact/gateway/circuit_breaker.h:174-190 | An uninterrupted success closes the half-open breaker exactly when the successes reach the threshold, and is counted otherwise |
| `BreakerCalls.LoneCallHalfOpen` | include/coropact/gateway/circuit_breaker.h:112-140 | An uninterrupted call to the half-open breaker takes a probe if one is left; otherwise it is refused and opens the breaker exactly if the last probe is as old as the timeout |
| `BreakerCalls.LoneCallOpen` | include/coropact/gateway/circuit_breaker.h:92-140 | An uninterrupted call to the open breaker changes nothing before the timeout; after it, it publishes a fresh probe cycle and takes part in it |
| `BreakerCalls.LoneCallIdle` | include/coropact/gateway/circuit_breaker.h:85-90 | An uninterrupted call to the closed breaker is let in and changes nothing else, outcomes reported to the open breaker change nothing, and while a transition is going on calls are refused and outcomes ignored without any change |
| `BreakerConditions.ProbesOnlyHalfOpen` | include/coropact/gateway/circuit_breaker.h:85-140 | No step of any run admits a probe unless the breaker is half-open, if and only if there is at most one thread or no probes are configured |
| `BreakerConditions.AdmittedWhileOpen` | include/coropact/gateway/circuit_breaker.h:112-121 | Otherwise, for every configuration, a run in which a call that saw HalfOpen and lagged is admitted although the breaker has opened again |
| `BreakerConditions.ProbesAfterTimeout` | include/coropact/gateway/circuit_breaker.h:85-140 | In every reachable half-open state the timeout since the breaker opened is over, if and only if there is at most one thread or the timeout is not positive |
| `BreakerConditions.ProbesTooEarly` | include/coropact/gateway/circuit_breaker.h:92-110 | Otherwise, for every configuration, a run in which a thread that lagged behind its test of the timeout makes the breaker half-open no time after it opened |
| `BreakerConditions.ExecSolo` | include/coropact/gateway/circuit_breaker.h:85-238 | With one thread every step keeps: who probes or claims finds the breaker half-open, and who is about to open a cycle has waited out the timeout |
| `BreakerConditions.ExecPunctual` | include/coropact/gateway/circuit_breaker.h:85-238 | In every interleaving no thread remembers, and the breaker does not record, a time that is still to come |
| `BreakerConditions.TimeoutTest` | include/coropact/gateway/circuit_breaker.h:95-97 | The unsigned comparison lets an open breaker go after the timeout, or when the time read is older than the opening |
| `Stream.ExecInv` | src/luring/stream.cc:41-324 | Every run of reads, timed reads, writes, closes and completions in any order, submissions failing or not, keeps the stream's invariant |
| `Stream.EveryAwaiterOnce` | src/luring/stream.cc:41-324 | No suspended awaiter is scheduled twice, none that did not suspend is scheduled, and once nothing is in flight each was scheduled exactly once |
| `Stream.NothingInFlightBehind` | src/luring/stream.cc:177-184 | An awaiter that was scheduled has no operation in flight, so a timed read is scheduled only after both of its completions |
| `Stream.ClosedOnceAndQuiet` | src/luring/stream.cc:284-316 | The descriptor is closed at most once and nothing is in flight on it then or later |
| `Stream.ClosedInTheEnd` | src/luring/stream.cc:284-316 | A stream that has been closed has given its descriptor back, exactly once, whenever nothing is in flight |
| `Stream.AnsweredClosed` | src/luring/stream.cc:243-277 | After a close that is answered at once with success the descriptor is closed |
| `Stream.ResumedClosed` | src/luring/stream.cc:284-316 | A close that had to wait is resumed only when the descriptor is closed |
| `Stream.ResumedWhenDone` | src/luring/stream.cc:75-241 | An awaiter with nothing in flight has been scheduled once, unless it is a close that still waits for transfers |
| `Stream.TransferSubmits` | src/luring/stream.cc:41-218 | Reads, timed reads and writes are submitted, and suspend, exactly if the stream is not closed, there is something to move, no transfer in that direction is in flight and the ring has room; a timed read with its timeout, if that has room too |
| `Stream.CloseSubmits` | src/luring/stream.cc:243-277 | A close submits a cancellation exactly if it is the first, something is in flight and the ring has room; the stream is then closed, without room it is as open as before, and with nothing in flight its descriptor is closed at once |
| `Stream.LUringStream.SuspendRead` | src/luring/stream.cc:41-73 | Awaiting a read answers at once for a closed stream, an empty buffer, a busy stream or a full ring, in this order, and otherwise suspends; a failed submission undoes the claim |
| `Stream.LUringStream.SuspendReadFor` | src/luring/stream.cc:101-144 | Awaiting a timed read answers at once in the same cases; otherwise it submits both operations, and goes on without the timeout if only that one fails |
| `Stream.LUringStream.SuspendWrite` | src/luring/stream.cc:186-218 | Awaiting a write answers at once for a closed stream, an empty buffer, a busy stream or a full ring, in this order, and otherwise suspends |
| `Stream.LUringStream.SuspendClose` | src/luring/stream.cc:243-277 | Awaiting a close reports busy while another waits and success on a closed stream, closes at once if nothing is pending, and otherwise cancels and suspends, or takes everything back if that cannot be submitted; whenever it answers success the descriptor is closed, and it has closed it if it was open |
| `Stream.LUringStream.HandleCompletion` | src/luring/loop.cc:501-545 | A completion runs the operation's hook and schedules the continuation that the hook leaves behind |
| `Stream.LUringStream.RunHook` | src/luring/stream.cc:84-305 | The hooks of reads, writes, timeouts and cancellation change the stream as the specification says |
| `Stream.LUringStream.FinishIfReady` | src/luring/stream.cc:177-184 | Whichever completion of a timed read comes second ends it |
| `Stream.LUringStream.NotifyCloseProgress` | src/luring/stream.cc:284-299 | A pending close goes through exactly when its cancellation is done and nothing is pending |
| `TimerQueue.ExecInv` | src/luring/timer_queue.cc:44-203 | Every run of adding, cancelling, completions with re-entrant callbacks and kernel events keeps flags, deadlines and kernel in step |
| `TimerQueue.NeverResubmitted` | src/luring/timer_queue.cc:136-203 | Neither operation is submitted while it is in flight, and the flags say truly what is |
| `TimerQueue.AlwaysReconciled` | src/luring/timer_queue.cc:136-152 | After every event a control operation is pending, or the driver is armed no later than every timer |
| `TimerQueue.AddInTime` | src/luring/timer_queue.cc:44-66 | In every consistent state, in a caller or in a callback: right after adding a timer the kernel wakes the loop in time for it, unless, before the call, the compatibility timeout is in flight with a later deadline and the driver is neither due in time nor waiting to be reaped, and then not |
| `TimerQueue.AddedInTime` | src/luring/timer_queue.cc:44-66 | The same in every reachable state |
| `TimerPunctuality.AlwaysInTime` | src/luring/timer_queue.cc:44-152 | In every run in which no add overtakes like that, by a caller or by a callback whose timer is not due at once, the kernel wakes the loop in time for every timer in the queue after every event |
| `TimerPunctuality.InTimeIffMild` | src/luring/timer_queue.cc:44-152 | In runs whose callbacks add no timers this is an equivalence: all timers are woken in time throughout if and only if no add overtakes |
| `TimerPunctuality.OvertakingLate` | src/luring/timer_queue.cc:44-66 | After any run, a caller's add that overtakes makes its timer late |
| `TimerPunctuality.CallbackOvertakingLate` | src/luring/timer_queue.cc:123-152 | So does a callback's: whatever later requests and callbacks do, its timer is late when the completion has been handled, unless it is gone |
| `TimerQueue.SupportedInTime` | src/luring/timer_queue.cc:101-152 | As long as no update has been refused, the kernel wakes the loop in time for every timer, in every run |
| `TimerQueue.UnsupportedLate` | src/luring/timer_queue.cc:101-152 | From every reachable state in which one has been refused, there is a continuation in which time goes forward, with a timer, due after any given time, that is woken too late |
| `TimerQueue.LateTimer` | src/luring/timer_queue.cc:101-152 | Such a run exists from the start |
| `TimerQueue.ProcessTidy` | src/luring/timer_queue.cc:123-134 | Handling a completion leaves no timer that is due, whatever callbacks add or cancel, runs each at most once and keeps the rest in order |
| `TimerQueue.ExecTidy` | src/luring/timer_queue.cc:44-134 | In every run timers are in order under distinct numbers, and none that has run is still queued or runs again |
| `TimerAccounts.AllAccounted` | src/luring/timer_queue.cc:44-134 | In every run every number given out is that of a timer that waits, has run or was cancelled, and of one kind only: no timer is lost |
| `TimerAccounts.CancelledNeverRuns` | src/luring/timer_queue.cc:68-84 | Once a cancellation has found its timer, the timer is not in the queue and has not run, at that point and after every continuation |
| `TimerAccounts.OnceCancelled` | src/luring/timer_queue.cc:68-84 | The same from every state in which a timer has been cancelled, by a caller or by a callback |
| `TimerAccounts.CancelledWasAsked` | src/luring/timer_queue.cc:68-84 | Nothing is cancelled that neither a caller nor a callback asked to cancel |
| `TimerAccounts.CancelBalanced` | src/luring/timer_queue.cc:68-84 | A cancellation takes out its timer and no other |
| `TimerAccounts.AddBalanced` | src/luring/timer_queue.cc:44-66 | An accepted timer is in the queue under a number of its own |
| `TimerAccounts.NotBeforeTime` | src/luring/timer_queue.cc:123-134 | No completion runs a timer whose time has not come, whatever callbacks do |
| `TimerAccounts.DueRuns` | src/luring/timer_queue.cc:94-134 | A completion of the driver or the compatibility timeout runs every timer that is due by then, unless a callback cancels it first |
| `TimerAccounts.EarliestFirst` | src/luring/timer_queue.cc:123-134 | Of the timers that are due the earliest runs first |
| `TimerAccounts.CallbacksServed` | src/luring/timer_queue.cc:123-134 | As many callbacks are carried out as timers run, and every timer they add gets a number |
| `TimerAccounts.ArmedForEarliest` | src/luring/timer_queue.cc:136-203 | Whatever reconciling submits is for the time of the earliest timer |
| `TimerQueue.LUringTimerQueue.AddTimer` | src/luring/timer_queue.cc:44-66 | An invalid time is refused; otherwise the timer is queued in order and the operations are reconciled |
| `TimerQueue.LUringTimerQueue.CancelTimer` | src/luring/timer_queue.cc:68-84 | An unknown timer is refused; otherwise it leaves the queue and is recorded as cancelled, and the operations are reconciled |
| `TimerQueue.LUringTimerQueue.HandleDriverComplete` | src/luring/timer_queue.cc:94-99 | The driver is disarmed, due timers run, and the operations are reconciled |
| `TimerQueue.LUringTimerQueue.HandleControlComplete` | src/luring/timer_queue.cc:101-121 | A compatibility timeout runs due timers; an update is taken over or switches updates off |
| `TimerQueue.LUringTimerQueue.RunExpired` | src/luring/timer_queue.cc:123-134 | The loop over due timers with their callbacks computes the recursive specification |
| `TimerQueue.LUringTimerQueue.ReconcileAll` | src/luring/timer_queue.cc:136-152 | Arming, updating and the compatibility timeout are chosen as specified |
| `ReadyScheduler.CountersAndOrder` | src/luring/loop.cc:182-371 | In every run the depth counters equal the queue lengths and both queues resume work in the order in which it came, losing nothing |
| `ReadyScheduler.OverdueTurn` | src/luring/loop.cc:287-290 | A turn that finds ordinary work overdue resumes some of it, whatever the budgets and completions |
| `ReadyScheduler.NeverStarved` | src/luring/loop.cc:225-371 | Once ordinary work is overdue the item at place k is resumed within k+1 turns, whatever resumed work enqueues, and in its place in the order |
| `ReadyScheduler.CompletionsWait` | src/luring/loop.cc:250-290 | Until all ordinary work that waited at the start of a turn has been resumed: no completion if ordinary work was overdue, at most maxUrgent if only completions were and that is not zero, at most maxCompletion in every other case if that is not zero |
| `ReadyScheduler.CompletionsBefore` | src/luring/loop.cc:250-290 | Where ordinary work is not overdue, a turn resumes ordinary work only after all completions that waited when it began, or after as many as that bound |
| `ReadyScheduler.CompletionFirst` | src/luring/loop.cc:284-298 | Where ordinary work is not overdue, and so also where there is none, a turn that finds completions resumes the first of them |
| `ReadyScheduler.TurnEnds` | src/luring/loop.cc:282-361 | A turn ends only with both queues empty, with exactly maxWork pieces resumed, or because the piece resumed last used up the time budget, which none before it had; a budget of zero ends nothing |
| `ReadyScheduler.ResumedInTime` | src/luring/loop.cc:182-371 | Ordinary work scheduled when none was waiting is resumed, at the latest, in the first turn that starts normalAge later, whatever happens in between |
| `ReadyScheduler.AgeCounts` | src/luring/loop.cc:182-226 | The age of each queue counts from when it ceased to be empty, until the item that came then is resumed |
| `ReadyScheduler.TurnBounded` | src/luring/loop.cc:283-285 | A turn resumes no more work than its limit, whatever is enqueued meanwhile |
| `ReadyScheduler.LUringLoop.RunReady` | src/luring/loop.cc:225-371 | The budgeted loop computes the specified turn |
| `ReadyScheduler.LUringLoop.ScheduleWork` | src/luring/loop.cc:182-197 | Scheduling appends, counts, and starts the age when the queue was empty |
| `ReadyScheduler.LUringLoop.ScheduleCompletion` | src/luring/loop.cc:199-226 | The same for completions |
| `RateLimiter.WithinRate` | include/coropact/gateway/rate_limiter.h:50-73 | In any window a bucket accepts at most its burst and what its rate yields in that time, whatever its condition before |
| `RateLimiter.SpacedCallAccepted` | include/coropact/gateway/rate_limiter.h:50-73 | A client that waits for a whole token is never refused |
| `RateLimiter.PollingLoses` | include/coropact/gateway/rate_limiter.h:50-73 | Calls that are not cut at the burst, however they are spaced, lose less than a millionth of a token each: tokens given and left exceed what was there and what the rate yields in that time, less that |
| `RateLimiter.PollingServedIff` | include/coropact/gateway/rate_limiter.h:57-66 | A client that polls an empty bucket at a fixed step is ever served if and only if one step yields at least a millionth of a token |
| `RateLimiter.SlowBucketStarves` | include/coropact/gateway/rate_limiter.h:57-66 | Polled every millisecond, a bucket of less than a thousandth of a token per second never gives anything |
| `RateLimiter.RefilledIsSafe` | include/coropact/gateway/rate_limiter.h:81-87 | The owner's test is right: a bucket that passes it is full at every later time |
| `RateLimiter.FullIsFresh` | include/coropact/gateway/rate_limiter.h:77-87 | A bucket that is full again acts and ends up like a new one |
| `RateLimiter.EvictionLosesNothing` | include/coropact/gateway/rate_limiter.h:128-181 | As long as the cap turns nobody away, every verdict is that of a limiter that never evicts |
| `ClientRates.OneBucketEach` | include/coropact/gateway/rate_limiter.h:128-181 | Whoever else calls and whatever is evicted, the answers a client gets are those of a single bucket made at its first call for which there was room, calls without room left out |
| `ClientRates.ClientWithinRate` | include/coropact/gateway/rate_limiter.h:128-181 | Between any two of its calls a client is granted at most the burst and what the rate yields in that time |
| `ClientRates.CapHolds` | include/coropact/gateway/rate_limiter.h:138-156 | In every run a limiter with a cap keeps no more buckets than that |
| `ClientRates.NoRoomIff` | include/coropact/gateway/rate_limiter.h:138-150 | There is no room for a client exactly if it is unknown, the cap is reached, and the last sweep is less than an interval ago or no bucket is full again |
| `RateLimiter.TokenBucket.TryConsume` | include/coropact/gateway/rate_limiter.h:50-73 | Refill, clamp and consumption happen as specified, with fractions of a millionth lost at every call |
| `RateLimiter.PerClientLimiter.AllowPerIP` | include/coropact/gateway/rate_limiter.h:128-156 | A limiter that is switched off admits everybody and keeps no bucket; otherwise known clients, new clients, eviction and the hard cap are handled as specified |
| `RateLimiter.PerClientLimiter.EvictFullBuckets` | include/coropact/gateway/rate_limiter.h:170-181 | The sweep drops exactly the buckets that are full again, at most once per interval |
| `BlockBuffer.Buffer.Append` | include/coropact/io/buffer.h:129-143 | The contents grow by exactly the bytes, over as many blocks as it takes |
| `BlockBuffer.Buffer.PrepareWrite` | include/coropact/io/buffer.h:76-106 | The contents stay, the pieces handed out are the reserved blocks in order, each with the length of its room, and together they are large enough unless only one piece is allowed |
| `BlockBuffer.Buffer.CommitWrite` | include/coropact/io/buffer.h:108-125 | The first n reserved bytes become the end of the contents, for partial, zero and full commits |
| `BlockBuffer.Buffer.AbortWrite` | include/coropact/io/buffer.h:127 | The contents stay and the reservation ends |
| `BlockBuffer.Buffer.Drain` | include/coropact/io/buffer.h:149-152 | The first n bytes go, or all if there are fewer |
| `BlockBuffer.Buffer.DrainCommitted` | include/coropact/io/buffer.h:234-249 | The loop over the front blocks removes exactly n bytes, past empty blocks |
| `BlockBuffer.Buffer.DrainAll` | include/coropact/io/buffer.h:154-157 | Nothing is left |
| `BlockBuffer.Buffer.EnsureTailWritable` | include/coropact/io/buffer.h:198-216 | Reserved blocks are at the end of the chain and only the first of them holds data |
| `BlockBuffer.CommittedIs` | include/coropact/io/buffer.h:108-125 | Committing n bytes of a chain of that shape appends the first n reserved bytes to the contents |
| `BlockBuffer.Perform` | include/coropact/io/buffer.h:76-157 | For every sequence of appends, drains and reads, with any number of arriving bytes, of committed bytes or an abort, the chain holds what a plain byte queue would hold and the byte count is its length; a read gets room exactly if pieces are allowed, and the room it asked for from two pieces on |
| `QuadHeap.IntrusiveQuadHeap.Insert` | include/coropact/ds/intrusive_quadheap.h:126-134 | Heap order and every stored index are kept, a linked element is refused, and otherwise exactly that element is added |
| `QuadHeap.IntrusiveQuadHeap.Erase` | include/coropact/ds/intrusive_quadheap.h:156-174 | Heap order and every stored index are kept, from any position, and exactly that element goes |
| `QuadHeap.IntrusiveQuadHeap.SiftUp` | include/coropact/ds/intrusive_quadheap.h:117-125 | An element that may belong higher up is brought to its place |
| `QuadHeap.IntrusiveQuadHeap.SiftDown` | include/coropact/ds/intrusive_quadheap.h:136-155 | An element that may belong further down is brought to its place |
| `QuadHeap.IntrusiveQuadHeap.PopWhile` | include/coropact/ds/intrusive_quadheap.h:176-187 | Elements come out in nondecreasing order while they satisfy the predicate; what is left is no smaller, and its smallest fails the predicate |
| `QuadHeap.RootSmallest` | include/coropact/ds/intrusive_quadheap.h:78 | Heap order makes the root a smallest element |
| `ForwardLoop.Forward` | include/coropact/gateway/proxy_pass.h:229-384 | Over every course of events: the peers tried are those that the failures, the balancer and the failover lead to, three at most; the new writes are one for every attempt that had a connection, in order, to its peer and made out for it, so a completed request was written last to the peer that answered; it fails only if it must not be repeated, three attempts are made or no other peer is selected or available; exactly one outcome is reported, and the slot and every peer's active count are as before |
| `ForwardLoop.WrittenIff` | include/coropact/gateway/proxy_pass.h:309-315 | The request is written to the peers of exactly the attempts that had a connection |
| `ForwardLoop.CompletedWasWritten` | include/coropact/gateway/proxy_pass.h:309-383 | A request that has completed was written last to the peer that answered |
| `ForwardLoop.WrittenOnce` | include/coropact/gateway/proxy_pass.h:281-366 | A request that must not be repeated is written once at most, and any other three times at most |
| `ForwardLoop.FirstAnswerDecides` | include/coropact/gateway/proxy_pass.h:169-177 | What is reported to the breaker is what the first response headers say, if there are any |
| `ForwardLoop.OneCourse` | include/coropact/gateway/proxy_pass.h:268-366 | The peers a request goes to are determined by what happens to its attempts |
| `ForwardLoop.TryOnce` | include/coropact/gateway/proxy_pass.h:268-383 | One turn of the loop settles the request or moves on to the peer that the failure leads to, with one retry less |
| `ForwardLoop.RetryOrGiveUp` | include/coropact/gateway/proxy_pass.h:281-304 | A failed attempt moves on exactly if the request may be repeated, retries are left and another peer is selected or available, and otherwise releases and reports |
| `ForwardLoop.RelayResponse` | include/coropact/gateway/proxy_pass.h:169-177 | The response headers settle the outcome once |
| `ForwardLoop.SelectFailoverPeer` | src/gateway/proxy_pass.cc:88-96 | The first available peer other than the current one, if there is one |
| `ForwardLoop.Upstream.TryAcquireRequestSlot` | include/coropact/gateway/upstream.h:64-81 | A slot is taken exactly if there is no limit or it is not reached |
| `RequestSlots.ExecInv` | include/coropact/gateway/upstream.h:64-85 | Every interleaving of loads, exchanges that may fail and releases keeps the invariant of the slots |
| `RequestSlots.SlotsExact` | include/coropact/gateway/upstream.h:64-85 | In every interleaving the counter is the number of callers inside and no limit is ever exceeded |
| `RequestSlots.RefusedWhenFull` | include/coropact/gateway/upstream.h:71-81 | A caller is sent away only with the limit itself as the number it last saw |
| `RequestSlots.LoadedTruly` | include/coropact/gateway/upstream.h:71-80 | What a caller sees is the number of callers inside at that moment |
| `RequestSlots.LoneCaller` | include/coropact/gateway/upstream.h:64-81 | A caller that nobody interrupts is let in exactly if there is no limit or a slot is free |

## Left out

- Memory orders weaker than sequential consistency, and 64-bit wrap-around of positions and counters.
- `LUringMailbox::RetryNotification`, whose check and store are two separate steps.
- Submission failures of the timer queue, and `FlushSubmit` accounting.
- The maximum cache, `Prev`, `Maximum`, `Clear` and the debug checker of the red-black tree: they mirror or restate what is there.
- Elements of the red-black tree that compare equal: the comparison is taken to be a strict total order.
- RedBlackTree.IntrusiveRBTree.PopWhile: the variant with a callback per element is not modelled for the tree; the timer queue models it on a sorted sequence.
- TimerQueue.LUringTimerQueue.RunExpired: timers are a sorted sequence here, not the tree, and what callbacks do is given as finite scripts, so that callbacks that add due timers forever are not covered.
- ReadyScheduler.NeverStarved: fairness is stated for ordinary work only, since completions yield to overdue ordinary work.
- ReadyScheduler.LUringLoop.RunReady: statistics and latency samples are not modelled, and ages are differences of a monotone clock.
- SmoothRoundRobin.SmoothWeightedRoundRobin.Select: 32-bit overflow of running weights is not modelled.
- RateLimiter.WithinRate: rates and bursts are exact non-negative reals, so rounding of doubles is not modelled.
- CircuitBreaker.ProbesBounded: it bounds the probes of a cycle; calls admitted in the closed state are not counted.
- BlockBuffer.Buffer.PrepareWrite: blocks are values in a sequence and pieces are named by block and length, so aliasing of raw memory is not modelled; the read-only views and moves of buffers are left out.
- QuadHeap.IntrusiveQuadHeap.PopWhile: the variant with a callback per element is not modelled.
- ForwardLoop.Forward: timeouts, statistics, peer health and the bytes sent to the client are not modelled, and of the pool only what is given back to it; a relay is lost before its headers, after them, or completes.
- UpstreamWriter.BuildRequest: the order in which the hash table of headers is walked is a parameter.
- GatewayRoundTrip.ForwardedReparses: the client address, scheme, gateway name, request identifier and peer address are taken to be free of line breaks and of spaces at their ends.
- HashRing.Lookup: building and sorting the ring is described by what sorting and deduplicating may produce; murmur hash internals are left out everywhere.
- Response header rewriting and framing, and what the client sees when a relay fails midway and is retried.
- Moves, shutdown and destruction of streams, what close(2) answers, and the values that suspended awaiters return.
- MaglevBalancer.MaglevLB.Select: the lock around a rebuild is not modelled, so concurrent callers are taken one at a time.
- ForwardLoop.Upstream.TryAcquireRequestSlot: in the forwarding loop the compare-and-swap loop among concurrent callers is one step; `RequestSlots` has its steps.
- Router trie, hash tables, LRU caches, connection pools, arenas, the splay tree and the other balancers: easier than what is here or more of the same.
- Configuration, logging, sockets, coroutine machinery and worker threads.
