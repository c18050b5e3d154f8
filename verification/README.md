# A verified model of the acatl MQTT broker

This project models the MQTT 3.1.1 broker of acatl (`acatl_mqtt` and the broker example) and three
smaller protocols that sit beside it (the send queue, the thread pool, directory and path
iteration), and proves what they keep. `dafny verify dfyconfig.toml` checks all of it.

Code that changes objects step by step is modelled by classes with the same fields and loops, and
each method is proved against a function on values: the topic cursor, the subscription tree and its
manager, all packet parsers, the serializer, the read loop, sessions and the session manager, the
two iterators. What several threads do to each other is modelled by labelled steps, one label for
each critical section, and proved for every run: the copy-on-write tree manager, processors and
sessions, the send queue, the thread pool.

| file | content |
|---|---|
| Common, Packets | bytes, packets, headers, error codes |
| Topics | levels, the shared cursor, filter and name validation, filter lists |
| Trie, SharedCursor | the subscription tree on values: additions, matching with independent and with shared cursors, cloning |
| SubscriptionTree | the tree on the heap, and the manager that replaces it |
| TreeManager | the copy-on-write protocol, all interleavings |
| RemainingLength, Decoding, FieldParsers, MqttParser | length field, reference decoders of whole packets, and the byte-at-a-time parsers |
| Serializer, RoundTrip, Stream | writing packets, what arrives, and the read loop over chunks |
| SessionManager, Broker | sessions, and any number of processors competing for them |
| SendQueue, Delivery, ThreadPool | the send queue of a connection, broker and queue together, the thread pool |
| RecursiveDirectory, PathIteration | recursive directory iteration, splitting and joining paths |

## What the code does, where one might expect something else

The model follows the code. Where that differs from the MQTT 3.1.1 standard or from what the code
seems to intend, a lemma shows it and, where possible, says exactly when it matters.

- Copies of a topic iterator share their position. Match is right exactly when no node has a literal
  child beside a "+" child that continues with something other than "#" (`SharedCursorExact`,
  `FiltersExactForAllSessions`, `SafeFilters`, `SharedCursorMissesFilter`).
- "#" stands for one or more levels; the parent level itself (section 4.7.1.2 of the standard) does
  not match, and topics that start with "$" (section 4.7.2) are ordinary. One trailing empty level
  is dropped.
- A NUL byte counts as the start of a level in filter validation; the rule is missed exactly for the
  filters accepted with a wildcard behind a NUL byte (`ValidationExact`).
- `operator<` on topic filters is no strict weak order. `std::sort` is therefore modelled as some
  permutation; the set difference still never loses a filter (`DifferenceCompletesUnion`).
- The SUBSCRIBE and SUBACK parsers keep the lists of earlier packets, and the CONNECT parser keeps
  fields a packet does not carry. `StreamExact` says exactly which streams are not affected.
- CONNECT is read with bit 3 of the flags as its will QoS; bit 4 is lost. User name and password must
  come together. CONNACK is read as two bytes, and PINGREQ, PINGRESP and DISCONNECT as none, whatever
  their headers declare; the declared body is read as the next packet (`DeclaredFramingExact`,
  `BodyReadAsPacket`).
- The check for left-over bytes at the end of a body can only fire for CONNECT; in the other parsers
  it is dead and is not modelled.
- For an empty client id without a clean session the parser answers that the packet is complete and
  reports an error as well; the read loop stops on the error and hands nothing on.
- PUBLISH is written with QoS 0 and without its identifier.
- The serializer reserves two bytes for header and length field and writes beyond the buffer where
  that is too little (`FitsExactly`, `OverrunExact`, `LongPublishOverruns`).
- `setTree` calls `try_lock` on a mutex its own thread holds; it is taken to fail, as the code expects.
- A session keeps the handler of the processor that created it, and that handler registers its own
  current session (`RegisterExact`, `ReturningClientIsNotServed`). The model records the use of a
  null session or of a destroyed handler as a fault.
- A client whose session is in use gets an accepting CONNACK before reading stops (`InUseIsAccepted`,
  `OnlySerializablePackets`).
- The stop flag of the thread pool is set without the mutex; with zero workers, which
  `hardware_concurrency` allows, accepted tasks are dropped.

## Model

| member | source | states |
|---|---|---|
| Tries.TrieRefinesFlatList | acatl_mqtt/mqtt_subscription_tree.h:58-148 | after any sequence of additions, matching with independent cursors finds exactly the sessions that added a storable filter whose levels match the topic ("+" one level, a final "#" one or more) |
| Tries.MatchResult | acatl_mqtt/mqtt_subscription_tree.h:111-130 | `match` answers true exactly when the topic matches a whole initial part of an added path, whether or not anybody subscribed there |
| Tries.AddSucceeds | acatl_mqtt/mqtt_subscription_tree.h:132-148 | adding succeeds exactly for lists of levels with "#" only at the end, whatever the tree |
| Tries.AddHolds | acatl_mqtt/mqtt_subscription_tree.h:69-78 | an addition stores the session at the node of its own path and changes no other node's sessions |
| Tries.AddReaches | acatl_mqtt/mqtt_subscription_tree.h:132-148 | an addition creates exactly the nodes along its path down to the first "#", also when it fails |
| Tries.ReachesAddAll | acatl_mqtt/mqtt_subscription_tree.h:132-148 | which nodes exist after any sequence of additions |
| Tries.CloneExact | acatl_mqtt/mqtt_subscription_tree.h:155-164 | a clone equals the original if and only if no root node in it holds sessions |
| Tries.CloneFidelity | acatl_mqtt/mqtt_subscription_tree.h:155-164 | every tree that can be built is cloned without loss, because no path is empty |
| SharedCursors.SharedCursorExact | acatl_mqtt/mqtt_topic.h:51-53 | with one cursor shared by all copies, match agrees with independent cursors on every wildcard-free topic if and only if no node has a literal child beside a "+" child that goes on with anything but "#" (for trees in which every node leads to a stored session and each session subscribes once, so that a mistake shows) |
| SharedCursors.FilterListExact | acatl_mqtt/mqtt_subscription_tree.h:111-148 | the same on filters: with one session for each filter, the match as written is right on every wildcard-free topic if and only if no two filters clash |
| SharedCursors.FiltersExactForAllSessions | acatl_mqtt/mqtt_subscription_tree.h:111-148 | which lists of filters are served rightly whoever the subscribers are and however often one of them subscribes: those in which no two filters clash, and no others |
| SharedCursors.SafeAgrees | acatl_mqtt/mqtt_subscription_tree.h:111-130 | the agreement on every such tree, at every position of the cursor |
| SharedCursors.SafeFilters | acatl_mqtt/mqtt_subscription_tree.h:111-148 | the same condition on the list of filters: the tree is safe if and only if no two filters clash |
| SharedCursors.SharedCursorRefinesFlatList | acatl_mqtt/mqtt_subscription_tree.h:111-130 | without clashing filters the match as written finds exactly the sessions with a stored matching filter |
| SharedCursors.SharedCursorMissesFilter | acatl_mqtt/mqtt_topic.h:51-53 | the filters a and +/c/d: on a/c/d the second one is missed although it matches |
| SharedCursors.WalkFindsStored | acatl_mqtt/mqtt_subscription_tree.h:58-67 | whatever the tree and the cursor, match finds stored sessions only, at most as many levels deep as the cursor has left |
| SubscriptionTrees.SubscriptionNode.AddFilter | acatl_mqtt/mqtt_subscription_tree.h:69-78 | on the heap: the node's new contents and the answer are those of the addition on values |
| SubscriptionTrees.SubscriptionNode.Match | acatl_mqtt/mqtt_subscription_tree.h:58-67 | on the heap: the session set grows by exactly what the shared-cursor walk collects, and the callers see the cursor where it leaves it |
| SubscriptionTrees.SubscriptionNode.CloneNode | acatl_mqtt/mqtt_subscription_tree.h:155-164 | on the heap: the copy has the cloned contents and shares no node with the original |
| SubscriptionTrees.SubscriptionTree.AddFilter | acatl_mqtt/mqtt_subscription_tree.h:328-331 | adding a filter string adds its levels |
| SubscriptionTrees.SubscriptionTree.Match | acatl_mqtt/mqtt_subscription_tree.h:323-326 | matching a topic string is one shared-cursor walk from its first level |
| SubscriptionTrees.SubscriptionTree.CloneTree | acatl_mqtt/mqtt_subscription_tree.h:345-348 | a fresh tree with the cloned contents |
| SubscriptionTrees.SubscriptionTreeManager.AddSubscriptions | acatl_mqtt/mqtt_processor.h:69-76 | clone, add every filter, publish: the published contents are the batch folded over the clone, and the old tree is left untouched |
| TreeManager.StepInv | acatl_mqtt/mqtt_subscription_tree_manager.h:76-104 | every interleaved step of writers and readers keeps the copy-on-write invariant |
| TreeManager.SnapshotNeverChanges | acatl_mqtt/mqtt_subscription_tree_manager.h:82-86 | a tree handed to a reader never changes, whatever writers do later |
| TreeManager.PublishedIsFoldOfCommits | acatl_mqtt/mqtt_subscription_tree_manager.h:92-101 | in every run the published tree is the fold of all committed batches in lock order, and every snapshot is the fold of a whole number of them: no update is lost or half visible |
| TreeManager.SetTreeOwnsTheLock | acatl_mqtt/mqtt_subscription_tree_manager.h:92-101 | `try_lock` in `setTree` never succeeds in a run: the caller itself holds the write lock |
| TreeManager.ReaderSeesCommittedFilters | acatl_mqtt/mqtt_subscription_tree_manager.h:82-86 | a reader's match sees exactly the batches committed before it took its snapshot: with independent cursors always, as written when none of their filters clash |
| Topics.TopicCursor.constructor | acatl_mqtt/mqtt_topic.h:138-144 | the cursor stands on the first level; every string has at least one |
| Topics.TopicCursor.NextTopic | acatl_mqtt/mqtt_topic.h:156-177 | moves to the next level of the "/"-split with one trailing empty level dropped, and says whether there was one |
| Topics.TopicCursor.Advance | acatl_mqtt/mqtt_topic.h:84-90 | `operator++`: the iterator survives exactly while levels are left; the shared cursor moves |
| Topics.LevelsAt | acatl_mqtt/mqtt_topic.h:156-177 | one character-level step of the cursor is one level of the split |
| Topics.ValidateFilter | acatl_mqtt/mqtt_topic.h:212-232 | the character loop accepts exactly when every "+" and "#" is where the rule allows it |
| Topics.ValidationExact | acatl_mqtt/mqtt_topic.h:212-232 | acceptance and the rule of section 4.7.1 of MQTT 3.1.1 on the split ("+" and "#" alone in their level, "#" last) differ exactly for accepted filters in which a wildcard follows a NUL byte within a level |
| Topics.NulHidesWildcard | acatl_mqtt/mqtt_topic.h:212-232 | a filter that is accepted only because a NUL byte counts as the start of a level |
| Topics.AcceptedIsAddable | acatl_mqtt/mqtt_topic.h:212-232 | every accepted filter, with or without NUL bytes, can be stored in the tree |
| Topics.ValidateName | acatl_mqtt/mqtt_topic.h:296-303 | a topic name is accepted exactly when it has no wildcard |
| Topics.NameLevels | acatl_mqtt/mqtt_topic.h:156-177 | the levels of an accepted name are literals |
| Topics.OrderIsNotAsymmetric | acatl_mqtt/mqtt_topic.h:207-210 | `operator<` on filters puts two filters before each other |
| Topics.FindDifference | acatl_mqtt/mqtt_topic.h:259-269 | the merge loop of `std::set_difference` |
| Topics.DifferenceCompletesUnion | acatl_mqtt/mqtt_topic.h:259-269 | for lists in any order and despite that ordering, the stored list with the difference appended has exactly the elements of both; nothing is invented |
| Topics.DifferenceWithItself | acatl_mqtt/mqtt_topic.h:259-269 | subscribing again with the stored list adds nothing |
| RemainingLength.EncodedLengthIsMinimal | acatl_mqtt/mqtt_utils.h:84-97 | the length field is as short as possible |
| RemainingLength.DecodeEncode | acatl_mqtt/mqtt_utils.h:50-97 | decoding undoes encoding for fields of up to four bytes and refuses longer ones on the fifth byte |
| RemainingLength.ShortFieldMeansSmall | acatl_mqtt/mqtt_utils.h:84-97 | up to four bytes means exactly values below 128^4 |
| RemainingLength.AcceptedLengthExact | acatl_mqtt/mqtt_utils.h:61-75 | on any bytes: accepted exactly when a correctly marked field of at most four bytes is there, with the value it stands for; nothing has wrapped |
| RemainingLength.RunlengthDecoder.Decode | acatl_mqtt/mqtt_utils.h:61-75 | each byte moves the decoder along the value its field will have, in 32-bit arithmetic that never wraps |
| RemainingLength.Encode | acatl_mqtt/mqtt_utils.h:84-97 | writes the field behind the bytes already in the buffer |
| FieldParsers.StringParser.Parse | acatl_mqtt/mqtt_string_parser.h:70-110 | each byte moves a length-prefixed string along, and the last one yields exactly its characters |
| FieldParsers.PacketIdentifierParser.Parse | acatl_mqtt/mqtt_packet_identifier_parser.h:67-84 | two bytes, high one first |
| FieldParsers.ConnectParser.Parse | acatl_mqtt/mqtt_connect_parser.h:80-242 | each byte of a CONNECT body moves the eleven-state parser along the reference decoding, to the same fields, the same error and the same number of bytes |
| FieldParsers.PublishParser.Parse | acatl_mqtt/mqtt_publish_parser.h:77-144 | the same for PUBLISH |
| FieldParsers.SubscribeParser.Parse | acatl_mqtt/mqtt_subscribe_parser.h:75-148 | the same for SUBSCRIBE, filters compared as a set |
| FieldParsers.SortFilters | acatl_mqtt/mqtt_subscribe_parser.h:128-129 | some permutation of the filters |
| FieldParsers.UniqueFilters | acatl_mqtt/mqtt_subscribe_parser.h:128-129 | removes only adjacent repetitions, so the set of filters stays |
| FieldParsers.SubAckParser.Parse | acatl_mqtt/mqtt_suback_parser.h:71-121 | the same for SUBACK |
| FieldParsers.ConnectAckParser.Parse | acatl_mqtt/mqtt_connack_parser.h:66-100 | the same for CONNACK |
| MqttParsers.FixedHeaderParser.Parse | acatl_mqtt/mqtt_fixed_header_parser.h:69-110 | first byte and length field, or the error they deserve |
| MqttParsers.MQTTParser.constructor | acatl_mqtt/mqtt_parser.h:60-76 | a new parser stands before a packet with nothing remembered |
| MqttParsers.MQTTParser.Parse | acatl_mqtt/mqtt_parser.h:78-209 | each byte, with any bytes still to come, moves the parser along the reference decoding of the stream: still undecided, or done with packet, verdict and rest, or failed with that error |
| MqttParsers.MQTTParser.ConsumePacket | acatl_mqtt/mqtt_parser.h:211-215 | hands the packet out and keeps what the parsers do not reset |
| Serializers.Serialize | acatl_mqtt/mqtt_serializer.h:50-262 | for every packet and buffer: the packet kind is refused, or the first bytes of the buffer are the packet's bytes, or the code would write beyond the buffer, and exactly when each of these happens |
| Serializers.FitsExactly | acatl_mqtt/mqtt_serializer.h:86-112 | the space the serializer asks for is enough exactly when the length field is one byte; SUBACK always relies on a larger buffer |
| Serializers.PutConnect | acatl_mqtt/mqtt_serializer.h:113-152 | the fields of CONNECT in their order, optional ones as flagged |
| Serializers.PutFilters | acatl_mqtt/mqtt_serializer.h:219-231 | filters and their QoS, in list order |
| RoundTrips.ExactFraming | acatl_mqtt/mqtt_parser.h:78-209 | whatever the bytes: an accepted packet has consumed its first byte, at most four length bytes and the body of its kind - the declared length for CONNECT, PUBLISH, SUBSCRIBE and SUBACK, two bytes for CONNACK, nothing for the others |
| RoundTrips.DeclaredFramingExact | acatl_mqtt/mqtt_parser.h:78-209 | an accepted packet ends where its length field says if and only if it is one of those four kinds, a CONNACK that declares two bytes or another packet that declares none |
| RoundTrips.BodyReadAsPacket | acatl_mqtt/mqtt_parser.h:125-139 | the bytes C0 02 E0 00: the PINGREQ is accepted without its body, which is then read as a DISCONNECT |
| RoundTrips.RoundTripExact | acatl_mqtt/mqtt_serializer.h:50-262 | in both directions: the reference decoding of a packet's bytes, whatever follows them, yields the packet unchanged if and only if it is sendable |
| Streams.ReceivePacket | acatl_mqtt/mqtt_parser.h:78-209 | the same at the parser: fed byte by byte, it answers "indeterminate" until the last byte and then has the packet, if and only if the packet is sendable |
| RoundTrips.ConnectDecoded | acatl_mqtt/mqtt_connect_parser.h:80-242 | what a CONNECT becomes, whatever follows it: delivered exactly when user name and password flags agree, with the higher will QoS bit lost and unsent fields as remembered |
| RoundTrips.PublishDecoded | acatl_mqtt/mqtt_serializer.h:182-203 | a PUBLISH goes out with QoS 0, so its identifier stays behind |
| RoundTrips.SubscribeDecoded | acatl_mqtt/mqtt_subscribe_parser.h:66-73 | a SUBSCRIBE arrives with its filters and all those of earlier packets |
| RoundTrips.SubAckDecoded | acatl_mqtt/mqtt_suback_parser.h:63-69 | a SUBACK arrives with its levels behind those of earlier packets |
| RoundTrips.ConnAckDecoded | acatl_mqtt/mqtt_connack_parser.h:66-100 | which CONNACKs arrive, and which error the others get |
| Streams.Connection.constructor | examples/mqtt_broker/connection.h:71-80 | a new connection will make of any stream what a new parser makes of it |
| Streams.Connection.HandleRead | examples/mqtt_broker/connection.h:110-149 | reading a chunk changes nothing about what the connection will have delivered in the end |
| Streams.Connection.ReadAll | examples/mqtt_broker/connection.h:97-149 | whatever the chunks, what is delivered and whether reading stops is determined by their concatenation |
| Streams.StreamDelivers | examples/mqtt_broker/connection.h:110-149 | a stream of serialized packets is delivered packet by packet, boundaries kept, also where earlier packets leave something over |
| Streams.StreamExact | examples/mqtt_broker/connection.h:110-149 | exactly the packets sent are delivered if and only if no CONNECT, SUBSCRIBE or SUBACK leaves something over for the next of its kind |
| Streams.ReceiveStream | examples/mqtt_broker/connection.h:97-149 | the same at the read loop: however a stream of sendable packets is cut into chunks, a new connection delivers exactly the packets sent if and only if nothing is left over |
| Streams.PlainStreamExact | acatl_mqtt/mqtt_publish_parser.h:66-75 | no condition is needed for PUBLISH, CONNACK, PINGRESP and DISCONNECT |
| SessionManagers.ClientSession.AddSubscriptions | acatl_mqtt/mqtt_session.h:82-90 | the stored filters become exactly the union of old and new; the difference is what goes to the handler |
| SessionManagers.SessionManager.GetSession | acatl_mqtt/mqtt_session_manager.h:54-62 | the client's session, created if new and refused if in use, on the heap as on values |
| SessionManagers.SessionManager.ReturnSession | acatl_mqtt/mqtt_session_manager.h:64-81 | by client id: no sender, not in use |
| SessionManagers.SessionManager.RemoveSession | acatl_mqtt/mqtt_session_manager.h:83-98 | only sessions that are not in use are erased |
| Brokers.StepExclusive | acatl_mqtt/mqtt_session_manager.h:54-128 | every step of any number of processors keeps the session invariant |
| Brokers.SessionsAreExclusive | acatl_mqtt/mqtt_session_manager.h:107-128 | in every run a client id belongs to at most one processor at a time, and an entry is in use exactly while some processor has that very session |
| Brokers.OnlyTheHolderLetsGo | acatl_mqtt/mqtt_session_manager.h:64-98 | until its own DISCONNECT or destruction a processor keeps its session, and nobody erases or replaces its entry |
| Brokers.ConnectsOnce | acatl_mqtt/mqtt_processor.h:96-112 | in every run at most one CONNECT of a processor gets through to the session manager, so no session it has is overwritten |
| Brokers.SubscribesAreAnswered | acatl_mqtt/mqtt_processor.h:191-202 | in every run, however others interleave: the SUBACKs sent to a connection are the answers to its accepted SUBSCRIBEs, one each and in order but for the one under way, each with its identifier and the QoS of its filters in order |
| Brokers.StepBound | acatl_mqtt/mqtt_processor.h:66-76 | every step keeps the binding of sessions, handlers and filters |
| Brokers.SubscriptionsAreConserved | acatl_mqtt/mqtt_session.h:82-90 | unless another processor than the creator subscribed through a session, a match finds the session by every filter it stores: with independent cursors always, as written when no two registered filters clash |
| Brokers.RegisterExact | acatl_mqtt/mqtt_processor.h:66-76 | the filters are registered for the session if and only if its creator subscribes, for the null session otherwise, but for the first filters when the creator is resetting its session meanwhile; a fault happens exactly when the creator has been destroyed |
| Brokers.ReturningClientIsNotServed | acatl_mqtt/mqtt_processor.h:66-76 | a whole run: a client comes back over another connection, subscribes, and no topic reaches it; those that match its filter find the null session |
| Brokers.NoFaultWithoutForeignSubscribe | acatl_mqtt/mqtt_processor.h:66-76 | no null session and no destroyed handler is used in a run before such a subscription |
| Brokers.PublishServesEachOnce | acatl_mqtt/mqtt_processor.h:171-189 | however others interleave, a finished PUBLISH has tried to send exactly one copy per session found in the tree published when it began and none to others; without clashing filters these are the sessions with a matching filter |
| Brokers.PublishDeliversAtMostOnce | acatl_mqtt/mqtt_processor.h:171-189 | on the queues of the connections, however others interleave, for every connection: one copy exactly when the publisher has sent one for the session the connection had at that moment, and none otherwise; that session was found, and has a matching filter when no two clash |
| Brokers.PublishDeliversToNobodyElse | acatl_mqtt/mqtt_processor.h:171-189 | a connection whose session was not found, or that had none when the PUBLISH came, gets no copy, even if it leaves meanwhile; without clashing filters the session of whoever gets one has a matching filter |
| Brokers.PublishDeliversToSubscribers | acatl_mqtt/mqtt_processor.h:171-189 | on the queues, however others interleave: a live connection that keeps its session gets exactly one copy when that session was found and none otherwise; without clashing filters this means that one of its filters matches |
| Brokers.DeliveredIsEnqueued | examples/mqtt_broker/connection.h:151-159 | what a PUBLISH has delivered is in the queue in the end |
| Brokers.SendsOnce | acatl_mqtt/mqtt_processor.h:171-189 | what was matched is sent once each, under every interleaving |
| Brokers.CopyArrives | acatl_mqtt/mqtt_processor.h:177-183 | one copy enters the queue of the live connection that has the session, and of no other |
| Brokers.OnlySerializablePackets | acatl_mqtt/mqtt_processor.h:156-207 | in every run processors send only SUBACK, PINGRESP, PUBLISH and the accepting CONNACK, even to a client whose session is in use; all of them can be serialized |
| SendQueues.StepInv | examples/mqtt_broker/connection.h:151-214 | every critical section and every progress of a write keeps the queue's invariant |
| SendQueues.OneWriter | examples/mqtt_broker/connection.h:161-172 | at most one thread, write or handler uses the write buffer at a time |
| SendQueues.InPushOrder | examples/mqtt_broker/connection.h:174-199 | bytes leave in push order: at any moment they are an initial part of what was pushed |
| SendQueues.NothingStranded | examples/mqtt_broker/connection.h:151-199 | when nobody is inside and no write failed, everything pushed has left and `_isSending` is false |
| SendQueues.UnserializableStrands | examples/mqtt_broker/connection.h:190-196 | a packet that cannot be serialized leaves the ones behind it waiting with nobody to send them |
| SendQueues.NoOverrun | examples/mqtt_broker/connection.h:190-196 | for every run: the serializer stays inside the buffer if every packet fits the buffer as it was at first |
| SendQueues.OverrunExact | examples/mqtt_broker/connection.h:174-199 | in every run the buffer is overrun if and only if one of the packets taken out so far does not fit the buffer that the ones before it have left |
| SendQueues.LongPublishOverruns | examples/mqtt_broker/connection.h:190-196 | with the 64 bytes a connection starts with, a PUBLISH with a body of 128 bytes or more is written beyond the buffer |
| Deliveries.OutboxReachesWire | examples/mqtt_broker/connection.h:151-199 | broker and send queue together: what a run of the broker sends to a connection is what leaves, in order and with nothing else; when its queue is at rest without an overrun all of it has left |
| ThreadPools.StepInv | acatl/thread_pool.h:71-108 | every step of workers, clients and the destructor keeps the pool's invariant, with stop set at any moment |
| ThreadPools.TasksAreConserved | acatl/thread_pool.h:72-94 | an accepted task is queued, in hand or executed, as often as it was accepted; tasks are taken in the order of acceptance |
| ThreadPools.NothingAcceptedAfterExit | acatl/thread_pool.h:127-140 | no task is accepted once a worker has exited |
| ThreadPools.AllExitedMeansAllExecuted | acatl/thread_pool.h:98-108 | with at least one worker: when all have exited, every accepted task has been executed exactly once |
| ThreadPools.WithoutWorkersTasksAreDropped | acatl/thread_pool.h:63-72 | without workers an accepted task is dropped |
| RecursiveDirectories.RecursiveDirectoryIterator.constructor | acatl/detail/posix/filesystem.cpp:613-622 | all entries below the root in preorder are ahead |
| RecursiveDirectories.RecursiveDirectoryIterator.FindNextEntry | acatl/detail/posix/filesystem.cpp:643-654 | pops exhausted iterators; nothing ahead is lost or repeated, and no stacked iterator is at its end |
| RecursiveDirectories.RecursiveDirectoryIterator.Increment | acatl/detail/posix/filesystem.cpp:656-672 | one entry further in recursive preorder, or an error, exactly at a directory that cannot be opened, that changes nothing |
| RecursiveDirectories.RecursiveDirectoryIterator.Walk | acatl/detail/posix/filesystem.cpp:656-672 | a walk ends; it visits preorder up to the first directory that cannot be opened |
| RecursiveDirectories.WalkTree | acatl/detail/posix/filesystem.cpp:613-672 | for every tree: a walk succeeds, with all of preorder, if and only if every directory below the root on its way can be opened; an unreadable root gives the end iterator |
| RecursiveDirectories.PreorderVisitsEachOnce | acatl/detail/posix/filesystem.cpp:656-672 | the entries visited are those at the reachable addresses, each once, directories before their contents and siblings in order |
| PathIteration.PathIterator.Begin | acatl/filesystem.cpp:520-559 | the iterator stands on the first element |
| PathIteration.PathIterator.Increment | acatl/filesystem.cpp:714-745 | one element further; iteration ends |
| PathIteration.Prefixes | acatl/filesystem.cpp:1086-1089 | the prefix loop of `create_directories` visits, one after the other, the join of every non-empty initial part of the elements |
| PathIteration.ElementsShape | acatl/filesystem.cpp:520-559 | elements are words, possibly behind a root directory or a root name |
| PathIteration.JoinThenSplit | acatl/filesystem.cpp:193-200 | joining such elements and splitting the result gives them back |
| PathIteration.RecoverableExactly | acatl/filesystem.cpp:193-200 | a list is recovered from its join if and only if iteration could have produced it |
| PathIteration.NormalForm | acatl/filesystem.cpp:193-200 | for every path: the join of its elements has the same elements, no repeated separator except at the very beginning, and is its own normal form |

## Left out

- Sockets, TLS, timers, logging, HTTP, JSON, configuration and the command line: libraries that are not part of this model.
- The UUID given to an empty client id: a parameter of the parser.
- Processor as a class: `processPacket` is modelled on values as labelled steps, because other threads come in between; what is not captured is aliasing of processor objects. Sessions and their manager are modelled both ways.
- Memory reclamation of shared and weak pointers: a packet sender is present or absent, and may vanish at any step.
- Parallel threads inside one critical section: a step is atomic where the code holds a mutex. Unsynchronised reads of another processor's current session are steps of their own.
- The publish identifier of a packet that was received with QoS 0: the code leaves it uninitialised, the model has 0.
- SUBACK codes in the order of the client's own SUBSCRIBE: the code sorts the filters first, and the order `std::sort` gives with such a comparison is not determined.
- Behaviour of a parser after it has reported an error: the read loop never asks again.
- PublishServesEachOnce: the filters as the standard reads them decide only when no two clash; with clashing filters the shared cursor decides, as `SharedCursorMissesFilter` shows. The same goes for the theorems on the queues.
- PublishDeliversToSubscribers: is about connections that stay; one that expires, is destroyed or disconnects meanwhile gets at most one copy, and none if its session was not found (`PublishDeliversToNobodyElse`).
- PublishDeliversToNobodyElse: is about connections that have sent their CONNECT when the PUBLISH comes; one that connects meanwhile gets a copy exactly when its session is served afterwards (`PublishDeliversAtMostOnce`).
- CopyArrives: `currentSender` and `addSendPacket` (acatl_mqtt/mqtt_processor.h:177-183) are one step, although no mutex covers both; a sender that loses its session between the two still gets the copy in the code. The answer to a packet likewise enters the queue in the last step of its processing.
- RegisterExact: the destruction of the creator in the middle of a batch is no step of its own; it is modelled as a destruction before the batch, with the same fault.
- Serialize: what the memory behind the buffer holds after an overrun; the code then has no defined outcome, and the model stops there.
- SharedCursorExact: for one given tree the "only if" half needs every node to lead to a session that subscribes once; a session that subscribes several times can hide a mistake of the cursor. `FiltersExactForAllSessions` speaks of all subscribers and has no such condition.
- NothingStranded: says nothing after a write error, on which the code stops sending for good.
- Termination of the thread pool: a notification can be missed because the stop flag is set outside the mutex; only safety and conservation are stated.
- File system errors other than a directory that cannot be opened, and cycles of followed links: trees are finite.
- Iterating backwards over paths, `parent_path`, `filename`, and paths with NUL bytes, which the code reads as C strings.
- `pop` and `disable_recursion_pending` of the recursive directory iterator: the pending flag is a fixed mode of a walk.
- The file system calls of `create_directories`: only the directories it goes through are modelled.
- Unimplemented packets (PUBACK family, UNSUBSCRIBE), retained messages and will delivery: absent from the code.
