# Bounded channels with select, modelled in Dafny

This project models the core of a C library of thread-safe message channels.
A channel is a bounded FIFO buffer of opaque payload references with a closed
flag. It has two registration lists of select tokens: callers waiting to send
and callers waiting to receive. `channel_select` races several send and
receive requests against each other.

The model has four modules:

- `LinkedList` (`linked_list.dfy`) is the registration list of
  `linked_list.c`. It is a class-based doubly linked list with head
  insertion, a node count, search by identity, unlinking of a given node, a
  traversal and release. A ghost sequence of nodes from head to tail is tied
  to `head`, `count` and every node's `next`/`prev` fields by `Valid()`.
  Every C function takes a possibly-null list or node, so the NULL-list and
  NULL-node branches are modelled too.
- `ChannelState` (`channel_state.dfy`) is the channel as a pure state
  machine. The state is the closed flag, the capacity and the buffered
  payloads. The send, receive and close steps return the status and the new
  state; destroy only decides its status. `Run` chains steps into histories, so FIFO delivery, the
  capacity bound and the effect of closing can be proved for whole histories.
- `Channels` (`channel.dfy`) is the channel object of `channel.c`. The
  `Channel` class holds the closed flag, the buffer and the two lists. The
  operations are module-level methods that take a possibly-null `Channel`, so
  the NULL-channel branch is modelled too. Send, receive and close
  update the closed flag and the buffer in place, exactly as the matching
  `ChannelState` step says. Destroy changes neither: it decides its status
  with `DestroyStatus` and releases the two lists. Notifying a registration list
  (`list_foreach(list, sem_post)`) is modelled as adding every registered
  token once to the multiset `posts`, which counts how often each token has
  been posted by this channel.
- `ChannelSelect` (`select.dfy`) is `channel_select`. It registers a fresh
  token in the wait list of every request (skipping a list that already
  holds it), then runs one round of non-blocking probes in request order.
  The first probe that does not report WOULDBLOCK wins. Its index and status
  are reported, a received payload is stored in the request's slot, and the
  token is removed from every list. When every probe would block, the round
  reports WOULDBLOCK and leaves the token registered. That is the point
  where the C code parks on its semaphore. The effect of the round on all
  channels is stated through a value-level `View`: per request, the channel
  state and posts; per list, its tokens. `RoundSpec` relates the view before
  the round to the view after it.

## Model

| member | source | states |
|---|---|---|
| LinkedList.List.constructor | linked_list.c:4-14 | a new list is valid, with NULL head, count 0 and no elements |
| LinkedList.Begin | linked_list.c:35-43 | the result is NULL exactly for a NULL or empty list, otherwise the first node |
| LinkedList.Next | linked_list.c:46-54 | NULL for a NULL node, otherwise the node after it in the list (NULL after the last) |
| LinkedList.Data | linked_list.c:57-64 | nothing for a NULL node, otherwise the element stored at that node's position |
| LinkedList.Count | linked_list.c:67-75 | 0 for a NULL list, otherwise the number of elements |
| LinkedList.Find | linked_list.c:79-98 | NULL exactly when the list is NULL or does not hold the data; otherwise the first node holding it |
| LinkedList.Insert | linked_list.c:101-124 | on a non-null list, a fresh node holding the data becomes the head, count grows by one and the elements become the data followed by the old elements; the list stays valid |
| LinkedList.Link | linked_list.c:105-118 | the pointer surgery of an insertion: the fresh node is the head, and its `next`/`prev` links chain correctly in front of the old nodes |
| LinkedList.Remove | linked_list.c:127-150 | removing a node of the list drops exactly that node (and its element) at its position, decrements count and keeps the list valid; a NULL node changes nothing |
| LinkedList.Unlink | linked_list.c:131-142 | the pointer surgery of a removal: the remaining nodes chain correctly and `head` is the first of them |
| LinkedList.Foreach | linked_list.c:153-165 | applying a function to every element from head to tail, the result is the left fold of the function over the elements |
| LinkedList.Destroy | linked_list.c:17-33 | with the loop corrected, every node is released once, in head-to-tail order, and `head` ends NULL |
| LinkedList.FreedAsWritten | linked_list.c:22-28 | the loop as written, on nodes numbered from the head: it stops at once on an empty list, runs at most `fuel` iterations, and every node it releases is the one `temp_node` was first set to |
| LinkedList.DestroyAsWrittenDoubleFree | linked_list.c:22-28 | the loop as written, on two or more nodes, releases the head node on every iteration |
| ChannelState.SendStep | channel.c:56-84 | CLOSED_ERROR on a closed channel, WOULDBLOCK on a full one, both changing nothing; otherwise the payload is appended; closed flag and capacity never change, and the capacity bound is kept |
| ChannelState.ReceiveStep | channel.c:129-157 | CLOSED_ERROR on a closed channel, WOULDBLOCK on an empty one, both changing nothing; otherwise the oldest payload is handed out and removed; a payload is handed out exactly on SUCCESS |
| ChannelState.CloseStep | channel.c:191-198 | SUCCESS exactly when the channel was open; afterwards it is closed and its buffer is untouched |
| ChannelState.DestroyStatus | channel.c:243-245 | SUCCESS exactly for a closed channel, DESTROY_ERROR for an open one |
| ChannelState.RunIsFifo | channel.c:150-157 | over any history, the payloads buffered first plus those accepted equal those delivered plus those still buffered, in order |
| ChannelState.StepIsFifo | channel.c:156-157 | the same FIFO balance for a single step |
| ChannelState.RunKeepsInv | channel.c:77-84 | over any history the buffer never exceeds the capacity, and the capacity never changes |
| ChannelState.RunStaysClosed | channel.c:197-198 | once closed, a channel stays closed over any history |
| ChannelState.RunOnClosed | channel.c:129-133 | on a closed channel every operation returns CLOSED_ERROR, nothing is accepted or delivered and the state does not change, even with payloads still buffered |
| ChannelState.DeliveredBound | channel.c:150-157 | no history delivers more payloads than were buffered or accepted |
| ChannelState.CloseTwice | channel.c:191-194 | a second close returns CLOSED_ERROR and changes nothing |
| ChannelState.CapacityTwoHistory | channel.c:77-84 | on a capacity-2 channel, two sends succeed, a third would block, and receives return the payloads oldest first |
| ChannelState.CapacityZeroNeverTransfers | channel.c:77-80 | a capacity-0 channel never accepts a send and never delivers anything |
| Channels.Channel.constructor | channel.c:5-30 | a new channel is open, with an empty buffer of the given capacity, empty registration lists and no posts |
| Channels.Post | channel.c:96 | one `sem_post` adds exactly one post, of that token, and keeps all earlier posts |
| Channels.PostAll | channel.c:96 | folding one post per token over a list of tokens adds exactly the multiset of those tokens |
| Channels.Notify | channel.c:95-97 | notifying a list posts each registered token once and leaves the closed flag and buffer alone |
| Channels.PostEach | channel.c:96 | the traversal that posts every token of a list adds the multiset of the list's elements |
| Channels.Send | channel.c:40-103 | OTHER_ERROR for NULL; otherwise the send step on the channel's state; on SUCCESS every token waiting to receive is posted once; on any other status nothing changes |
| Channels.Receive | channel.c:113-175 | OTHER_ERROR for NULL; otherwise the receive step, returning the oldest payload on SUCCESS; on SUCCESS every token waiting to send is posted once; on any other status nothing changes |
| Channels.Close | channel.c:182-230 | OTHER_ERROR for NULL; otherwise the close step; on SUCCESS every token in both lists is posted once; CLOSED_ERROR changes nothing |
| Channels.Destroy | channel.c:237-265 | OTHER_ERROR for NULL; DESTROY_ERROR changing nothing and releasing nothing for an open channel; SUCCESS for a closed one, returning every node of each list once, head to tail, with both heads NULL. The release is the corrected one: channel.c:258-259 call `list_destroy` as written (see Findings) |
| ChannelSelect.Register | channel.c:291-313 | the request's wait list gains the token in front unless it already holds it; the channel stays valid |
| ChannelSelect.Deregister | channel.c:332-357 | the first occurrence of the token, if any, is removed from the request's wait list |
| ChannelSelect.RegisterThenDeregister | channel.c:297-298 | a token inserted into a list that lacked it occurs there once, and removing it gives back the old list |
| ChannelSelect.RegisterAll | channel.c:289-314 | after the registration pass every wait list holds the token once in front of its old tokens, other lists are unchanged, and channel states and posts are untouched |
| ChannelSelect.DeregisterAll | channel.c:330-358 | after the deregistration pass every list is as it was before registration |
| ChannelSelect.RegisterPass | channel.c:289-314 | the registration pass in terms of views: the lists become `WithToken` of the old view, and nothing else changes |
| ChannelSelect.DeregisterPass | channel.c:330-358 | the deregistration pass in terms of views: the lists return to the given pre-registration view, and nothing else changes |
| ChannelSelect.ProbeStep | channel.c:318-324 | the state step of one probe (send step for a send request, receive step otherwise): CLOSED_ERROR exactly on a closed channel, nothing changes or is received unless SUCCESS, a send request receives nothing, and flag and capacity are kept |
| ChannelSelect.Probe | channel.c:318-324 | a send request runs the non-blocking send and a receive request the non-blocking receive; WOULDBLOCK leaves the channel as it was |
| ChannelSelect.ProbeInView | channel.c:318-324 | one probe in terms of views: only the probed channel's state and posts change, as its step says, and no list changes |
| ChannelSelect.ScanRound | channel.c:316-329 | the probes run in request order up to the first one that does not block; WOULDBLOCK with index n exactly when all block, in which case nothing changed; otherwise the winner's step is applied |
| ChannelSelect.ScanStep | channel.c:318-327 | probing request `index` after every earlier probe blocked: a blocking probe changes nothing, any other result ends the scan round at `index` |
| ChannelSelect.NewToken | channel.c:284-287 | the select token is fresh, so it is in no list yet, and creating it changes no channel |
| ChannelSelect.SelectRound | channel.c:289-363 | registration, one scan and (on a win) deregistration together satisfy `RoundSpec`; the channels stay valid and separate, and what they own grows only by fresh list nodes |
| ChannelSelect.StoreReceived | channel.c:323 | a received payload is written to the winning request's slot and nowhere else |
| ChannelSelect.Select | channel.c:274-371 | OTHER_ERROR for no requests or a NULL array; otherwise the round satisfies `RoundSpec`, the selected index is reported exactly when the status is not WOULDBLOCK, the winner's received payload is stored in its request, and the channels stay valid and separate |
| ChannelSelect.RegisteredOnce | channel.c:289-314 | after registration each wait list holds the token exactly once, whatever channels and directions repeat |
| ChannelSelect.SelectTakesFirstReady | channel.c:316-329 | if request k could go ahead, the round does not block and the winner's index is at most k |
| ChannelSelect.SelectTakesOnlyReady | channel.c:316-329 | if request k is ready and every other request would block, the round returns SUCCESS with index k |
| ChannelSelect.WonRoundLeavesNoToken | channel.c:330-358 | after a round that did not block, every list is as before and holds no token of the round |
| ChannelSelect.BlockedRoundStaysRegistered | channel.c:366-367 | after a round where every probe would block, no channel changed and every wait list holds the token once, so the next post wakes the caller |

## Left out

- Locks, condition variables and threads: every operation runs as one atomic step. Interleavings, the lock order and wake-ups of blocked threads are not modelled.
- Channels.Send: a blocking send is modelled only where it need not wait (a precondition), because waiting on the condition variable needs another thread.
- Channels.Receive: a blocking receive is modelled only where it need not wait, for the same reason.
- ChannelSelect.Select: models one probe round. A round in which every probe would block returns WOULDBLOCK with the token still registered, where the C code waits on its semaphore (`sem_wait`) and scans again. The wake-up and the repeated rounds need another thread.
- ChannelSelect.Select: requires that the request array is separate from the channels and their lists, which C callers meet by construction.
- A request's channel is never NULL in the model. The C select dereferences it before any check.
- A semaphore is an object identity; `sem_post` is one more count in the channel's `posts`, and `sem_init`, `sem_destroy` and their failures are not modelled.
- The lock-failure branch of non-blocking send and receive (channel.c:51-53 and channel.c:124-126, returning WOULDBLOCK) is not modelled. The comments there say a try-lock is meant, but the code calls the blocking `pthread_mutex_lock`, which waits and fails only on a lock error; the model follows the code.
- LinkedList.Foreach: takes a total function, so the `func == NULL` check of `list_foreach` (linked_list.c:155) is not modelled; the C code then does nothing.
- Allocation failure is not modelled: `channel_create` and `list_create` returning NULL, and `list_insert` silently doing nothing when a node cannot be allocated.
- The bounded buffer (`buffer.c`) is not part of this model. Its contents are a sequence of payloads, oldest first, bounded by a fixed capacity.
- Capacity 0 follows the code's literal check (capacity minus size is zero means full): such a channel is always full and always empty, so it never transfers anything. There is no rendezvous hand-off.
- Releasing memory (`free`, `buffer_free`, the destruction of locks) is not modelled; `LinkedList.Destroy` returns the released nodes instead.
- Payloads are opaque numbers; the `void *` data of list nodes is a type parameter.
- The C code reports the winner through `*selected_index`; the model returns it as an optional index.

## Findings

| source | as written | input that shows it | evidently intended | confidence | as-written member | corrected member |
|---|---|---|---|---|---|---|
| linked_list.c:22-28 | `temp_node` is set to the head once and never advanced; each iteration sets `head` to `temp_node->next` and frees `temp_node` | a list of two nodes: the first iteration frees node 0 and sets `head` to node 1, the second frees node 0 again | advance `temp_node` to the new head on each iteration, so each node is freed once | not executed | LinkedList.FreedAsWritten, LinkedList.DestroyAsWrittenDoubleFree | LinkedList.Destroy |
