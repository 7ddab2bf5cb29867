# Multicast transport of User-Mode Linux, host side

A Dafny model of `arch/um/drivers/mcast_user.c`, the host half of User-Mode
Linux's multicast network transport, with proofs about it.

The session record `struct mcast_data` is the class `McastUser.McastData`.
Its fields are the group address (`mcastAddr`), the address the send socket
got (`senderAddr`), the send descriptor (`sendFd`) and the device handle
(`dev`). The settings `addr`, `port` and `ttl` are constants. Its operations
are `UserInit` (mcast_user_init), `Remove` (mcast_remove), `Open`
(mcast_open), `Close` (mcast_close), `UserWrite` (mcast_user_write) and
`UserRead` (mcast_user_read).

The host is a value `HostSockets.Os`. It holds the set of open descriptors,
the next descriptor number, a supplied sequence of call outcomes, the
address each descriptor is bound to, and a trace of every call made.
`socket`, `setsockopt`, `bind` and `getsockname` each take the next outcome:
success, or failure with an errno such as `EADDRINUSE`. Once the supplied
outcomes run out, every call succeeds. `close` takes no outcome. It releases
the descriptor, and reports `EBADF` if the descriptor was not open.

`mcast_open` is specified by the function `McastUser.OpenEffect`. It is built
from the phases `SendPhase`, `SendProbe`, `RecvPhase`, `RecvSetup` and
`RecvJoin`, and from the send-port probe `Probe`. The method
`McastData.Open` keeps the C's control flow. The `goto out_close` and
`goto out` jumps are labelled blocks, and the 64-try loop is the method
`ProbeSendPort`. Both methods are proved to produce exactly what these
functions describe. The properties of `mcast_open` are then proved about
the functions:

- the probe tries successive ports with wrap-around, retries only on `EADDRINUSE`, and stops within 64 tries (module `McastOpenProps`);
- every path through `mcast_open` creates, closes and keeps particular descriptors (module `McastOpenFds`);
- whole runs for given outcomes (module `McastOpenScenarios`).

Three behaviours of the code are easy to misread. The model keeps each as
written:

- When all 64 candidate ports are in use, `mcast_open` does not fail. Control falls through to `getsockname`. If every later call succeeds, the open succeeds, with `sender_addr` holding port 0 of the unbound send socket (`ExhaustedProbeStillOpens`).
- The candidate ports are not always above the group port. `++portnum` is an `int` that `htons` narrows to 16 bits, so the candidates after 65535 are 0, 1, and so on (`ProbePorts`).
- A failure after `send_fd` is stored closes only the receive socket. The send socket stays open in `send_fd` (`OpenDescriptors`).

## Model

| member | source | states |
|---|---|---|
| `McastUser.NewAddr` | arch/um/drivers/mcast_user.c:27-49 | The group address exists exactly when the allocation succeeds. Its family is AF_INET, its address is what `in_aton` gives for the text, and its port field holds the configured port in network order, so the field is zero exactly for port 0. |
| `McastUser.McastData.UserInit` | arch/um/drivers/mcast_user.c:51-58 | Always returns 0 and stores the device. The group address is `new_addr`'s result, so it is NULL exactly when the allocation failed. sender_addr and send_fd are untouched. |
| `McastUser.McastData.Remove` | arch/um/drivers/mcast_user.c:60-66 | The group address becomes NULL and nothing else changes, so a second call changes nothing. |
| `McastUser.McastData.Open` | arch/um/drivers/mcast_user.c:68-222 | Returns exactly what `OpenEffect` describes for the stored group address, ttl, sender_addr and send_fd. The new host, sender_addr and send_fd also match it, and the group address and device are unchanged. |
| `McastUser.McastData.ProbeSendPort` | arch/um/drivers/mcast_user.c:114-130 | The bind loop ends as `Probe` does from counter 0. The host afterwards and the address left in sender_addr also match `Probe`. |
| `McastUser.CandidatePort` | arch/um/drivers/mcast_user.c:118-119 | The candidate for counter value n has host-order port n mod 65536. |
| `McastUser.McastData.Close` | arch/um/drivers/mcast_user.c:224-239 | Makes exactly two calls: drop membership of the group on `fd`, then close `fd`, whatever the first returned. `fd` is no longer open, nothing else is closed and no socket is created. |
| `McastUser.McastData.UserWrite` | arch/um/drivers/mcast_user.c:241-246 | The result is `net_sendto`'s result for send_fd and the group address. |
| `McastUser.WriteIgnoresFd` | arch/um/drivers/mcast_user.c:241-246 | The `fd` argument plays no part: two calls that differ only in it give the same result. |
| `McastUser.McastData.UserRead` | arch/um/drivers/mcast_user.c:248-282 | Returns 0 when the source port field equals sender_addr's port field. Otherwise it returns the received size unchanged. |
| `McastUser.ReadFiltersByPortOnly` | arch/um/drivers/mcast_user.c:272-281 | A datagram is dropped exactly when its host-order source port is the sender's port, or it is empty. Two sources with the same port get the same answer whatever their address. |
| `HostSockets.ByteOrderRoundTrip` | arch/um/drivers/mcast_user.c:76 | `ntohs` undoes `htons` and the reverse, and only port 0 gives the all-zero field. |
| `HostSockets.NtohsInjective` | arch/um/drivers/mcast_user.c:274 | Comparing port fields in network order is the same as comparing host-order ports. |
| `McastOpenProps.ProbeCounts` | arch/um/drivers/mcast_user.c:115-130 | The probe makes between 1 and 64 tries. sender_addr holds the candidate for the final counter value. Descriptors are neither opened nor closed. `fd` becomes bound to that candidate exactly when a bind succeeded. |
| `McastOpenProps.ProbeOnlyBinds` | arch/um/drivers/mcast_user.c:115-122 | The probe only adds calls to the trace. There is one bind of `fd` per try, each on the candidate after the previous one. |
| `McastOpenProps.ProbeStopsAtFirstOther` | arch/um/drivers/mcast_user.c:122-129 | With n leading EADDRINUSE outcomes and n below the tries left, the probe stops after n + 1 tries. It then ends Bound or BindFailed(errno), as the (n+1)-th outcome decides. Otherwise it ends Exhausted after 64 tries. |
| `McastOpenProps.ProbePorts` | arch/um/drivers/mcast_user.c:76-122 | From group port g, the probe adds 1 to 64 calls and nothing else. The k-th call (counting from 0) binds the send socket to port (g + 1 + k) mod 65536. |
| `McastOpenProps.ProbeRetriesOnlyOnInUse` | arch/um/drivers/mcast_user.c:122-129 | Every bind except the last met EADDRINUSE. The probe ends Bound exactly when the last bind succeeded, and BindFailed exactly when it failed with another errno, which is the errno reported. It ends Exhausted exactly when the 64th bind also met EADDRINUSE. |
| `McastOpenProps.ProbeIsQuiet` | arch/um/drivers/mcast_user.c:115-130 | The probe creates and closes no descriptor. |
| `McastOpenFds.RecvJoinHoldsOnly` | arch/um/drivers/mcast_user.c:193-216 | After binding to the group and joining it, the receive socket is either returned, or closed after a failure with a negative result. Nothing else is created or closed, and sender_addr and send_fd are kept. |
| `McastOpenFds.RecvSetupHoldsOnly` | arch/um/drivers/mcast_user.c:163-219 | The same holds from the receive socket's first option onwards. |
| `McastOpenFds.RecvPhaseOutcome` | arch/um/drivers/mcast_user.c:154-219 | One of three things happens. The receive socket() fails and nothing is created or closed. Or the receive socket is created and then closed after a later failure. Or it is created, kept open and returned. send_fd is kept in all three. |
| `McastOpenFds.SendProbeOutcome` | arch/um/drivers/mcast_user.c:114-150 | A failure in the probe or in getsockname closes the send socket and nothing else, and leaves send_fd as it was. Otherwise send_fd becomes the send socket and the receive half follows. |
| `McastOpenFds.SendPhaseOutcome` | arch/um/drivers/mcast_user.c:92-150 | The same holds from the send socket's first option onwards. |
| `McastOpenFds.OpenPaths` | arch/um/drivers/mcast_user.c:68-222 | Each call of mcast_open ends on one of five paths. For each, the lemma gives the descriptors created, closed and left open, what send_fd becomes, and whether the result is negative. |
| `McastOpenFds.OpenDescriptors` | arch/um/drivers/mcast_user.c:150-221 | At most two descriptors are created, both new and distinct. The call succeeds exactly when both were created and none closed. It then returns the second and send_fd holds the first, and both stay open. An error path closes only the last descriptor created. A failed receive socket() closes nothing. Once send_fd is stored it is never closed. |
| `McastOpenFds.InvalidGroupRejected` | arch/um/drivers/mcast_user.c:73-80 | A group with address 0 or port 0 gives -EINVAL, makes no call and changes nothing. Any other group makes at least one call. |
| `McastOpenScenarios.OpenReachesProbe` | arch/um/drivers/mcast_user.c:79-114 | With a valid group and three successes, mcast_open reaches the probe with a new, open, unbound send socket and nothing else changed. |
| `McastOpenScenarios.ProbeAfterInUse` | arch/um/drivers/mcast_user.c:115-130 | After exactly k ports in use (k below 64), the probe stops after k + 1 binds. The last is on the candidate for group port + k + 1, and the probe ends as that bind's outcome decides. |
| `McastOpenScenarios.ProbeAllInUse` | arch/um/drivers/mcast_user.c:115-130 | If the first 64 binds meet EADDRINUSE, the probe ends Exhausted after 64 binds and binds nothing. |
| `McastOpenScenarios.RecvAllOk` | arch/um/drivers/mcast_user.c:154-216 | When every call succeeds, the receive half returns the new receive descriptor. |
| `McastOpenScenarios.BindErrorClosesSendSocket` | arch/um/drivers/mcast_user.c:122-128 | A bind error other than EADDRINUSE after k ports in use makes mcast_open return the negated errno, whatever outcomes follow. It has created and closed exactly the send socket, left send_fd alone, and left sender_addr at the failed candidate, port (g + k + 1) mod 65536. |
| `McastOpenScenarios.ProbeFindsFreePort` | arch/um/drivers/mcast_user.c:115-150 | If a free port follows k in use and every later call succeeds, mcast_open returns the receive socket and send_fd holds the send socket. sender_addr holds AF_INET, the wildcard address and port (g + k + 1) mod 65536. |
| `McastOpenScenarios.ExhaustedProbeStillOpens` | arch/um/drivers/mcast_user.c:130-137 | If all 64 candidates are in use, mcast_open is not failed: it goes on to getsockname. If every later call succeeds, it opens, and sender_addr holds port 0. |

## Left out

- Real socket semantics are not modelled: multicast delivery, TTL, `IP_MULTICAST_LOOP`, `SO_REUSEADDR`, group membership, and what binding to port 0 means. Each call is modelled only by its success or errno.
- The modelled host hands out descriptors from a counter, and a new socket is unbound. A real kernel gives the lowest free number. The properties rely only on the new descriptor not being open.
- `in_aton`, `net_sendto` and `net_recvfrom2` are parameters: a function, a function, and the received (size, source address) pair. The outcome of `uml_kmalloc` in `new_addr` is a boolean parameter. `kfree` is the clearing of the field.
- Logging (`printk`), `inet_ntop` into the static buffer, and the `#if 0` blocks do not affect results and are not modelled.
- The `mcast_user_info` registration table and its `ETH_MAX_PACKET` sizes are not modelled.
- McastUser.McastData.Open: requires the group address to exist, because the C reads it unchecked. The `new_sockaddr_sin` call for sender_addr is taken to succeed, since the C writes through its result unchecked. The earlier sender_addr allocation that this call leaks is not modelled. The uninitialised content of the new allocation is the all-zero address; it is overwritten before it is read.
- McastUser.McastData.UserRead: takes the source address that `net_recvfrom2` filled in. The case where `net_recvfrom2` fails and the address is uninitialised is not modelled. The `fd`, `buf` and `len` arguments only feed `net_recvfrom2`, so they are not parameters.
- McastUser.McastData.ProbeSendPort: the `for` loop of mcast_open is a separate method. It changes only sender_addr and the host, exactly as the loop does inside mcast_open.
