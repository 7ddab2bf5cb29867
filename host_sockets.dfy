/** The host's socket layer as seen by the multicast transport.

    Every system call the transport makes (socket, setsockopt, bind,
    getsockname, close) is a step on an `Os` value: the set of open
    descriptors, the next descriptor number, a supplied sequence of call
    outcomes, the address each descriptor is bound to, and a trace of the
    calls made so far. What a call achieves on the real network (multicast
    delivery, TTL, loopback, group membership) is not modelled; only its
    success or errno is.
 */
module HostSockets {

  const AF_INET: int := 2
  const EBADF: int := 9
  const EINVAL: int := 22
  const EADDRINUSE: int := 98

  /** An unsigned 16-bit value (`unsigned short`, `in_port_t`). */
  type U16 = x: int | 0 <= x < 0x1_0000

  /** An IPv4 address as a 32-bit value (`in_addr_t`). */
  type Addr32 = x: int | 0 <= x < 0x1_0000_0000

  /** A value of `errno` after a failed call: always positive. */
  type Errno = e: int | 0 < e witness 22

  /** A byte. */
  type U8 = x: int | 0 <= x < 0x100

  /** A 16-bit port in network byte order: its two bytes as they sit in
      memory, the most significant first. */
  datatype NetPort = NetPort(hi: U8, lo: U8)

  /** The all-zero port field (`sin_port == 0`). */
  const ZeroPort: NetPort := NetPort(0, 0)

  /** htons: a port in host order to network order. */
  function Htons(p: U16): NetPort {
    NetPort(p / 0x100, p % 0x100)
  }

  /** ntohs: a port in network order back to host order. */
  function Ntohs(n: NetPort): U16 {
    n.hi * 0x100 + n.lo
  }

  /** htons and ntohs are inverse, and only port 0 has the all-zero field. */
  lemma ByteOrderRoundTrip(p: U16, n: NetPort)
    ensures Ntohs(Htons(p)) == p
    ensures Htons(Ntohs(n)) == n
    ensures Htons(p) == ZeroPort <==> p == 0
  {
  }

  /** Two port fields are equal exactly when their host-order values are. */
  lemma NtohsInjective(a: NetPort, b: NetPort)
    ensures Ntohs(a) == Ntohs(b) <==> a == b
  {
    if a.hi < b.hi {
      assert Ntohs(a) < (a.hi + 1) * 0x100 <= Ntohs(b);
    } else if b.hi < a.hi {
      assert Ntohs(b) < (b.hi + 1) * 0x100 <= Ntohs(a);
    }
  }

  /** `struct sockaddr_in`; `port` is held in network byte order, as in C. */
  datatype SockAddrIn = SockAddrIn(family: int, addr: Addr32, port: NetPort)

  /** The outcome the host gives to one call. */
  datatype Outcome = Ok | Err(errno: Errno)

  /** What a call returns: a value (a descriptor for socket, 0 otherwise) or an errno. */
  datatype SysResult = Done(value: int) | Failed(errno: Errno)

  datatype SockOpt =
    | MulticastTtl(ttl: int)
    | MulticastLoop(on: bool)
    | ReuseAddr(on: bool)
    | AddMembership(group: Addr32, iface: Addr32)
    | DropMembership(group: Addr32, iface: Addr32)

  datatype Call =
    | SocketCall
    | SetOptCall(fd: int, opt: SockOpt)
    | BindCall(fd: int, addr: SockAddrIn)
    | GetNameCall(fd: int)
    | CloseCall(fd: int)

  datatype Event = Event(call: Call, result: SysResult)

  datatype Os = Os(
    openFds: set<int>,
    next: nat,
    results: seq<Outcome>,
    bound: map<int, SockAddrIn>,
    trace: seq<Event>)
  {
    /** Every open descriptor is below the next one to be handed out. */
    predicate Valid() {
      forall fd :: fd in openFds ==> 0 <= fd < next
    }
  }

  /** A call's result together with the host state after it. */
  datatype Step = Step(result: SysResult, os: Os)

  /** The outcome of the next call: the first supplied one, success once they run out. */
  function NextOutcome(results: seq<Outcome>): Outcome {
    if results == [] then Ok else results[0]
  }

  /** The outcome of the k-th call from now, with the same convention. */
  function OutcomeAt(results: seq<Outcome>, k: nat): Outcome {
    if k < |results| then results[k] else Ok
  }

  function Rest(results: seq<Outcome>): seq<Outcome> {
    if results == [] then [] else results[1..]
  }

  /** The outcomes left after n more calls. */
  function Drop(results: seq<Outcome>, n: nat): seq<Outcome> {
    if n <= |results| then results[n..] else []
  }

  lemma DropRest(results: seq<Outcome>, n: nat)
    ensures Drop(Rest(results), n) == Drop(results, n + 1)
  {
  }

  function AsResult(o: Outcome): SysResult {
    match o
    case Ok => Done(0)
    case Err(e) => Failed(e)
  }

  /** Consume one outcome and record the call. */
  function Record(os: Os, c: Call, r: SysResult): Os {
    os.(results := Rest(os.results), trace := os.trace + [Event(c, r)])
  }

  /** socket(AF_INET, SOCK_DGRAM, 0); a new socket is not bound to anything. */
  function Socket(os: Os): (st: Step)
    ensures os.Valid() ==> st.os.Valid()
    ensures os.Valid() && st.result.Done? ==> 0 <= st.result.value && st.result.value !in os.openFds
  {
    match NextOutcome(os.results)
    case Ok =>
      var fd := os.next;
      var after := Record(os, SocketCall, Done(fd));
      Step(Done(fd), after.(openFds := os.openFds + {fd}, next := os.next + 1, bound := os.bound - {fd}))
    case Err(e) =>
      Step(Failed(e), Record(os, SocketCall, Failed(e)))
  }

  /** setsockopt(fd, ..., opt). */
  function SetSockOpt(os: Os, fd: int, opt: SockOpt): Step {
    var r := AsResult(NextOutcome(os.results));
    Step(r, Record(os, SetOptCall(fd, opt), r))
  }

  /** bind(fd, addr); on success the descriptor is bound to addr. */
  function Bind(os: Os, fd: int, addr: SockAddrIn): Step {
    var r := AsResult(NextOutcome(os.results));
    var after := Record(os, BindCall(fd, addr), r);
    Step(r, if r.Done? then after.(bound := os.bound[fd := addr]) else after)
  }

  /** getsockname(fd, ...); the address it reports is BoundName. */
  function GetSockName(os: Os, fd: int): Step {
    var r := AsResult(NextOutcome(os.results));
    Step(r, Record(os, GetNameCall(fd), r))
  }

  /** The address getsockname reports: the bound one, or the wildcard address with port 0. */
  function BoundName(os: Os, fd: int): (a: SockAddrIn)
    ensures a.family == AF_INET
    ensures fd in os.bound ==> a.addr == os.bound[fd].addr && a.port == os.bound[fd].port
    ensures fd !in os.bound ==> a.addr == 0 && a.port == ZeroPort
  {
    if fd in os.bound then SockAddrIn(AF_INET, os.bound[fd].addr, os.bound[fd].port)
    else SockAddrIn(AF_INET, 0, ZeroPort)
  }

  /** close(fd): the descriptor is released; EBADF if it was not open. */
  function Close(os: Os, fd: int): (after: Os)
    ensures after.openFds == os.openFds - {fd}
    ensures os.Valid() ==> after.Valid()
  {
    var r := if fd in os.openFds then Done(0) else Failed(EBADF);
    os.(openFds := os.openFds - {fd}, trace := os.trace + [Event(CloseCall(fd), r)])
  }

  /** The descriptors returned by successful socket calls, in order. */
  function Sockets(evs: seq<Event>): seq<int> {
    if evs == [] then []
    else
      var e := evs[|evs| - 1];
      Sockets(evs[..|evs| - 1]) + (if e.call.SocketCall? && e.result.Done? then [e.result.value] else [])
  }

  /** The descriptors passed to close, in order. */
  function Closes(evs: seq<Event>): seq<int> {
    if evs == [] then []
    else
      var e := evs[|evs| - 1];
      Closes(evs[..|evs| - 1]) + (if e.call.CloseCall? then [e.call.fd] else [])
  }

  /** The descriptors a stretch of calls opened and closed are those of its parts. */
  lemma {:induction false} SocketsClosesAppend(a: seq<Event>, b: seq<Event>)
    ensures Sockets(a + b) == Sockets(a) + Sockets(b)
    ensures Closes(a + b) == Closes(a) + Closes(b)
    decreases |b|
  {
    if b == [] {
      assert a + b == a;
    } else {
      var b' := b[..|b| - 1];
      assert (a + b)[..|a + b| - 1] == a + b';
      assert (a + b)[|a + b| - 1] == b[|b| - 1];
      SocketsClosesAppend(a, b');
    }
  }

  /** One more call adds its descriptor to Sockets or Closes, or nothing. */
  lemma StepSummary(t: seq<Event>, e: Event)
    ensures Sockets(t + [e]) == Sockets(t) + (if e.call.SocketCall? && e.result.Done? then [e.result.value] else [])
    ensures Closes(t + [e]) == Closes(t) + (if e.call.CloseCall? then [e.call.fd] else [])
  {
    assert (t + [e])[..|t + [e]| - 1] == t;
  }

  /** `b` is a later state of the host than `a`: its trace continues a's. */
  predicate Extends(a: Os, b: Os) {
    |a.trace| <= |b.trace| && b.trace[..|a.trace|] == a.trace
  }

  /** Between `a` and `b` no descriptor was created or closed. */
  predicate Quiet(a: Os, b: Os) {
    && Extends(a, b)
    && b.openFds == a.openFds && b.next == a.next
    && Sockets(b.trace) == Sockets(a.trace) && Closes(b.trace) == Closes(a.trace)
  }

  lemma ExtendsTrans(a: Os, b: Os, c: Os)
    requires Extends(a, b) && Extends(b, c)
    ensures Extends(a, c)
  {
    assert c.trace[..|a.trace|] == c.trace[..|b.trace|][..|a.trace|];
  }

  lemma QuietTrans(a: Os, b: Os, c: Os)
    requires Quiet(a, b) && Quiet(b, c)
    ensures Quiet(a, c)
  {
    ExtendsTrans(a, b, c);
  }

  /** setsockopt, bind and getsockname create and close no descriptor. */
  lemma OptionsAreQuiet(os: Os, fd: int, opt: SockOpt, addr: SockAddrIn)
    ensures Quiet(os, SetSockOpt(os, fd, opt).os)
    ensures Quiet(os, Bind(os, fd, addr).os)
    ensures Quiet(os, GetSockName(os, fd).os)
  {
    var a := SetSockOpt(os, fd, opt);
    StepSummary(os.trace, a.os.trace[|os.trace|]);
    assert a.os.trace == os.trace + [a.os.trace[|os.trace|]];
    var b := Bind(os, fd, addr);
    StepSummary(os.trace, b.os.trace[|os.trace|]);
    assert b.os.trace == os.trace + [b.os.trace[|os.trace|]];
    var n := GetSockName(os, fd);
    StepSummary(os.trace, n.os.trace[|os.trace|]);
    assert n.os.trace == os.trace + [n.os.trace[|os.trace|]];
  }

  /** socket either fails and creates nothing, or creates the descriptor
      `os.next` and nothing else; it closes nothing. */
  lemma SocketCounted(os: Os)
    ensures var st := Socket(os);
      && Extends(os, st.os) && Closes(st.os.trace) == Closes(os.trace)
      && (st.result.Failed? ==> st.os.openFds == os.openFds && st.os.next == os.next
                                && Sockets(st.os.trace) == Sockets(os.trace))
      && (st.result.Done? ==> st.result.value == os.next && st.os.next == os.next + 1
                              && st.os.openFds == os.openFds + {os.next}
                              && Sockets(st.os.trace) == Sockets(os.trace) + [os.next])
  {
    var st := Socket(os);
    StepSummary(os.trace, st.os.trace[|os.trace|]);
    assert st.os.trace == os.trace + [st.os.trace[|os.trace|]];
  }

  /** close adds its descriptor to the closed ones and creates nothing. */
  lemma CloseCounted(os: Os, fd: int)
    ensures var after := Close(os, fd);
      && Extends(os, after) && after.next == os.next
      && Sockets(after.trace) == Sockets(os.trace) && Closes(after.trace) == Closes(os.trace) + [fd]
  {
    var after := Close(os, fd);
    StepSummary(os.trace, after.trace[|os.trace|]);
    assert after.trace == os.trace + [after.trace[|os.trace|]];
  }
}
