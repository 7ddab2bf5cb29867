/** The host-side half of the multicast network transport
    (arch/um/drivers/mcast_user.c): building the group address, opening the
    send and receive sockets, closing, and the frame read/write filters.

    `McastData` is the session record `struct mcast_data`. The host is an
    `Os` value that the operations take and return (see HostSockets).
    The specification functions below (`Probe`, `OpenEffect`, ...) say what
    one call of `mcast_open` does; `McastData.Open` is proved to do exactly that.
 */
module McastUser {
  import opened HostSockets

  datatype Option<T> = None | Some(value: T)

  /** An opaque device handle (`void *dev`); 0 stands for NULL. */
  type DeviceRef = nat

  /** Number of candidate ports the send socket tries. */
  const BindTries: nat := 64

  /** The content of a freshly allocated, not yet written `sockaddr_in`. */
  const Unset: SockAddrIn := SockAddrIn(0, 0, ZeroPort)

  /** new_addr (with new_sockaddr_sin): the group address, or NULL when the
      allocation fails. `inAton` is the address parser, which is not part of
      this model. */
  function NewAddr(text: string, port: U16, inAton: string -> Addr32, allocOk: bool): (sin: Option<SockAddrIn>)
    ensures sin.Some? <==> allocOk
    ensures sin.Some? ==> sin.value.family == AF_INET && sin.value.addr == inAton(text)
    ensures sin.Some? ==> Ntohs(sin.value.port) == port
    ensures sin.Some? ==> (sin.value.port == ZeroPort <==> port == 0)
  {
    if !allocOk then None
    else
      Some(SockAddrIn(AF_INET, inAton(text), Htons(port)))
  }

  /** The address the send socket tries to bind to on the attempt that
      increments the port counter to `portnum`: zeroed, then the port
      narrowed to 16 bits by htons. */
  function SenderCandidate(portnum: int): SockAddrIn {
    SockAddrIn(0, 0, Htons(portnum % 0x1_0000))
  }

  /** The candidate for counter value n is bound to port n mod 65536 (host order). */
  lemma CandidatePort(n: int)
    ensures Ntohs(SenderCandidate(n).port) == n % 0x1_0000
  {
  }

  /** How the bind loop of mcast_open ended. */
  datatype BindEnd = Bound | Exhausted | BindFailed(errno: Errno)

  /** The loop's end, the last address written to sender_addr, the final
      value of the loop counter (the number of binds tried, counting the
      one that stopped the loop), and the host afterwards. */
  datatype Probed = Probed(end: BindEnd, sender: SockAddrIn, tries: nat, os: Os)

  /** The send-port probe of mcast_open from iteration i on, with the port
      counter at `portnum` and `sender` the address last written. */
  function Probe(os: Os, fd: int, portnum: int, i: nat, sender: SockAddrIn): Probed
    decreases BindTries - i
  {
    if i >= BindTries then Probed(Exhausted, sender, i, os)
    else
      var cand := SenderCandidate(portnum + 1);
      var st := Bind(os, fd, cand);
      if st.result.Failed? && st.result.errno == EADDRINUSE then
        Probe(st.os, fd, portnum + 1, i + 1, cand)
      else if st.result.Done? then
        Probed(Bound, cand, i + 1, st.os)
      else
        Probed(BindFailed(st.result.errno), cand, i + 1, st.os)
  }

  /** What one call of mcast_open produces: its return value, the host
      afterwards, and the session's sender_addr and send_fd afterwards. */
  datatype Opened = Opened(ret: int, os: Os, sender: Option<SockAddrIn>, sendFd: int)

  /** The `out_close` exit: close the descriptor held in `fd`, return -errno. */
  function CloseAndFail(e: Errno, os: Os, fd: int, sender: Option<SockAddrIn>, sendFd: int): Opened {
    Opened(-(e as int), Close(os, fd), sender, sendFd)
  }

  /** mcast_open: the whole call, for group address `g`. */
  function OpenEffect(g: SockAddrIn, ttl: int, sender: Option<SockAddrIn>, sendFd: int, os: Os): Opened {
    if g.addr == 0 || g.port == ZeroPort then Opened(-EINVAL, os, sender, sendFd)
    else
      var s := Socket(os);
      if s.result.Failed? then Opened(-(s.result.errno as int), s.os, sender, sendFd)
      else SendPhase(g, ttl, sender, sendFd, s.result.value, s.os)
  }

  /** mcast_open after the send socket `fd` was created, up to storing it in send_fd. */
  function SendPhase(g: SockAddrIn, ttl: int, sender: Option<SockAddrIn>, sendFd: int, fd: int, os: Os): Opened {
    var a := SetSockOpt(os, fd, MulticastTtl(ttl));
    if a.result.Failed? then CloseAndFail(a.result.errno, a.os, fd, sender, sendFd)
    else
      var b := SetSockOpt(a.os, fd, MulticastLoop(true));
      if b.result.Failed? then CloseAndFail(b.result.errno, b.os, fd, sender, sendFd)
      else SendProbe(g, ttl, sender, sendFd, fd, b.os)
  }

  /** mcast_open once the send socket `fd` has its options: the port probe,
      getsockname into sender_addr, and on to the receive socket. */
  function SendProbe(g: SockAddrIn, ttl: int, sender: Option<SockAddrIn>, sendFd: int, fd: int, os: Os): Opened {
    var p := Probe(os, fd, Ntohs(g.port), 0, Unset);
    if p.end.BindFailed? then CloseAndFail(p.end.errno, p.os, fd, Some(p.sender), sendFd)
    else
      var n := GetSockName(p.os, fd);
      if n.result.Failed? then CloseAndFail(n.result.errno, n.os, fd, Some(p.sender), sendFd)
      else RecvPhase(g, ttl, Some(BoundName(n.os, fd)), fd, n.os)
  }

  /** mcast_open after send_fd was stored: the receive socket. */
  function RecvPhase(g: SockAddrIn, ttl: int, sender: Option<SockAddrIn>, sendFd: int, os: Os): Opened {
    var s := Socket(os);
    if s.result.Failed? then Opened(-(s.result.errno as int), s.os, sender, sendFd)
    else RecvSetup(g, ttl, sender, sendFd, s.result.value, s.os)
  }

  /** mcast_open after the receive socket `fd` was created: its options. */
  function RecvSetup(g: SockAddrIn, ttl: int, sender: Option<SockAddrIn>, sendFd: int, fd: int, os: Os): Opened {
    var a := SetSockOpt(os, fd, ReuseAddr(true));
    if a.result.Failed? then CloseAndFail(a.result.errno, a.os, fd, sender, sendFd)
    else
      var b := SetSockOpt(a.os, fd, MulticastTtl(ttl));
      if b.result.Failed? then CloseAndFail(b.result.errno, b.os, fd, sender, sendFd)
      else
        var c := SetSockOpt(b.os, fd, MulticastLoop(true));
        if c.result.Failed? then CloseAndFail(c.result.errno, c.os, fd, sender, sendFd)
        else RecvJoin(g, sender, sendFd, fd, c.os)
  }

  /** mcast_open's last two calls: bind the receive socket `fd` to the group
      address and join the group on it. */
  function RecvJoin(g: SockAddrIn, sender: Option<SockAddrIn>, sendFd: int, fd: int, os: Os): Opened {
    var d := Bind(os, fd, g);
    if d.result.Failed? then CloseAndFail(d.result.errno, d.os, fd, sender, sendFd)
    else
      var m := SetSockOpt(d.os, fd, AddMembership(g.addr, 0));
      if m.result.Failed? then CloseAndFail(m.result.errno, m.os, fd, sender, sendFd)
      else Opened(fd, m.os, sender, sendFd)
  }

  /** `struct mcast_data`: the configuration (addr, port, ttl) and the
      state the transport keeps between calls. */
  class McastData {
    const addr: string
    const port: U16
    const ttl: int
    var mcastAddr: Option<SockAddrIn>
    var senderAddr: Option<SockAddrIn>
    var sendFd: int
    var dev: DeviceRef

    /** A record as the configuration code leaves it: zeroed apart from its settings. */
    constructor (addr: string, port: U16, ttl: int)
      ensures this.addr == addr && this.port == port && this.ttl == ttl
      ensures mcastAddr.None? && senderAddr.None? && sendFd == 0 && dev == 0
    {
      this.addr, this.port, this.ttl := addr, port, ttl;
      mcastAddr, senderAddr, sendFd, dev := None, None, 0, 0;
    }

    /** mcast_user_init: build the group address and remember the device. */
    method UserInit(dev: DeviceRef, inAton: string -> Addr32, allocOk: bool) returns (r: int)
      modifies this
      ensures r == 0
      ensures mcastAddr == NewAddr(addr, port, inAton, allocOk) && this.dev == dev
      ensures mcastAddr.None? <==> !allocOk
      ensures senderAddr == old(senderAddr) && sendFd == old(sendFd)
    {
      mcastAddr := NewAddr(addr, port, inAton, allocOk);
      this.dev := dev;
      r := 0;
    }

    /** mcast_remove: free the group address and forget it. */
    method Remove()
      modifies this
      ensures mcastAddr.None?
      ensures senderAddr == old(senderAddr) && sendFd == old(sendFd) && dev == old(dev)
    {
      mcastAddr := None;
    }

    /** mcast_open. The group address must have been built (the C reads
        through it unchecked). Returns the receive descriptor or a negative
        errno; the host `os` is what the calls see and `os'` what they leave. */
    method Open(os: Os) returns (r: int, os': Os)
      requires mcastAddr.Some?
      modifies this
      ensures var run := OpenEffect(old(mcastAddr).value, ttl, old(senderAddr), old(sendFd), os);
        r == run.ret && os' == run.os && senderAddr == run.sender && sendFd == run.sendFd
      ensures mcastAddr == old(mcastAddr) && dev == old(dev)
    {
      var sin := mcastAddr.value;
      var err := -EINVAL;
      var portnum: int := Ntohs(sin.port);
      os' := os;
      ghost var run := OpenEffect(sin, ttl, senderAddr, sendFd, os);
      ghost var sender0, sendFd0 := senderAddr, sendFd;
      label out: {
        if sin.addr == 0 || sin.port == ZeroPort {
          break out;
        }
        var st := Socket(os');
        os' := st.os;
        if st.result.Failed? {
          err := -(st.result.errno as int);
          assert run == Opened(err, os', senderAddr, sendFd);
          break out;
        }
        var fd := st.result.value;
        assert run == SendPhase(sin, ttl, sender0, sendFd0, fd, os');
        label outClose: {
          st := SetSockOpt(os', fd, MulticastTtl(ttl));
          os' := st.os;
          if st.result.Failed? {
            err := -(st.result.errno as int);
            assert run == CloseAndFail(st.result.errno, os', fd, senderAddr, sendFd);
            break outClose;
          }
          st := SetSockOpt(os', fd, MulticastLoop(true));
          os' := st.os;
          if st.result.Failed? {
            err := -(st.result.errno as int);
            assert run == CloseAndFail(st.result.errno, os', fd, senderAddr, sendFd);
            break outClose;
          }
          assert run == SendProbe(sin, ttl, sender0, sendFd0, fd, os');
          var bindEnd;
          bindEnd, os' := ProbeSendPort(fd, portnum, os');
          if bindEnd.BindFailed? {
            err := -(bindEnd.errno as int);
            assert run == CloseAndFail(bindEnd.errno, os', fd, senderAddr, sendFd);
            break outClose;
          }
          st := GetSockName(os', fd);
          os' := st.os;
          if st.result.Failed? {
            err := -(st.result.errno as int);
            assert run == CloseAndFail(st.result.errno, os', fd, senderAddr, sendFd);
            break outClose;
          }
          senderAddr := Some(BoundName(os', fd));
          sendFd := fd;
          assert run == RecvPhase(sin, ttl, senderAddr, sendFd, os');

          st := Socket(os');
          os' := st.os;
          if st.result.Failed? {
            err := -(st.result.errno as int);
            assert run == Opened(err, os', senderAddr, sendFd);
            break out;
          }
          fd := st.result.value;
          assert run == RecvSetup(sin, ttl, senderAddr, sendFd, fd, os');
          st := SetSockOpt(os', fd, ReuseAddr(true));
          os' := st.os;
          if st.result.Failed? {
            err := -(st.result.errno as int);
            assert run == CloseAndFail(st.result.errno, os', fd, senderAddr, sendFd);
            break outClose;
          }
          st := SetSockOpt(os', fd, MulticastTtl(ttl));
          os' := st.os;
          if st.result.Failed? {
            err := -(st.result.errno as int);
            assert run == CloseAndFail(st.result.errno, os', fd, senderAddr, sendFd);
            break outClose;
          }
          st := SetSockOpt(os', fd, MulticastLoop(true));
          os' := st.os;
          if st.result.Failed? {
            err := -(st.result.errno as int);
            assert run == CloseAndFail(st.result.errno, os', fd, senderAddr, sendFd);
            break outClose;
          }
          st := Bind(os', fd, sin);
          os' := st.os;
          if st.result.Failed? {
            err := -(st.result.errno as int);
            assert run == CloseAndFail(st.result.errno, os', fd, senderAddr, sendFd);
            break outClose;
          }
          st := SetSockOpt(os', fd, AddMembership(sin.addr, 0));
          os' := st.os;
          if st.result.Failed? {
            err := -(st.result.errno as int);
            assert run == CloseAndFail(st.result.errno, os', fd, senderAddr, sendFd);
            break outClose;
          }
          r := fd;
          return;
        }
        os' := HostSockets.Close(os', fd);
      }
      r := err;
    }

    /** The send-port probe inside mcast_open (its `for` loop): up to 64
        binds of the send socket `fd`, each to the port after the previous
        one, starting after `portnum`; each candidate is written to
        sender_addr first. Only EADDRINUSE moves on to the next port. */
    method ProbeSendPort(fd: int, portnum: int, os: Os) returns (end: BindEnd, os': Os)
      modifies this`senderAddr
      ensures senderAddr.Some?
      ensures var p := Probe(os, fd, portnum, 0, Unset);
        end == p.end && os' == p.os && senderAddr.value == p.sender
    {
      var port := portnum;
      senderAddr := Some(Unset);
      os' := os;
      end := Exhausted;
      for i := 0 to BindTries
        invariant senderAddr.Some? && port == portnum + i && end == Exhausted
        invariant Probe(os, fd, portnum, 0, Unset) == Probe(os', fd, port, i, senderAddr.value)
      {
        ghost var rest := Probe(os', fd, port, i, senderAddr.value);
        port := port + 1;
        senderAddr := Some(SenderCandidate(port));
        var st := Bind(os', fd, senderAddr.value);
        os' := st.os;
        if st.result.Failed? {
          if st.result.errno == EADDRINUSE {
            assert rest == Probe(os', fd, port, i + 1, senderAddr.value);
            continue;
          }
          end := BindFailed(st.result.errno);
          assert rest == Probed(end, senderAddr.value, i + 1, os');
          break;
        }
        end := Bound;
        assert rest == Probed(end, senderAddr.value, i + 1, os');
        break;
      }
    }

    /** mcast_close: leave the group on `fd` (a failure is only logged),
        then close `fd` whatever happened. */
    method Close(fd: int, os: Os) returns (os': Os)
      requires mcastAddr.Some?
      ensures os'.openFds == os.openFds - {fd}
      ensures os.Valid() ==> os'.Valid()
      ensures |os'.trace| == |os.trace| + 2 && os'.trace[..|os.trace|] == os.trace
      ensures os'.trace[|os.trace|].call == SetOptCall(fd, DropMembership(mcastAddr.value.addr, 0))
      ensures os'.trace[|os.trace| + 1].call == CloseCall(fd)
      ensures Sockets(os'.trace) == Sockets(os.trace) && Closes(os'.trace) == Closes(os.trace) + [fd]
    {
      var sin := mcastAddr.value;
      var st := SetSockOpt(os, fd, DropMembership(sin.addr, 0));
      os' := HostSockets.Close(st.os, fd);
      StepSummary(os.trace, Event(SetOptCall(fd, DropMembership(sin.addr, 0)), st.result));
      StepSummary(st.os.trace, os'.trace[|os'.trace| - 1]);
    }

    /** mcast_user_write: send `buf` on send_fd to the group address,
        whatever descriptor the caller passes; the result is net_sendto's. */
    function UserWrite(fd: int, buf: seq<bv8>, len: int,
                       netSendto: (int, seq<bv8>, int, Option<SockAddrIn>) -> int): (r: int)
      reads this
      ensures r == netSendto(sendFd, buf, len, mcastAddr)
    {
      netSendto(sendFd, buf, len, mcastAddr)
    }

    /** mcast_user_read, after net_recvfrom2 returned `size` and filled in the
        source address `from`: a datagram from our own send port is dropped
        (0), anything else is passed on with its size. */
    function UserRead(size: int, from: SockAddrIn): (r: int)
      reads this
      requires senderAddr.Some?
      ensures from.port == senderAddr.value.port ==> r == 0
      ensures from.port != senderAddr.value.port ==> r == size
    {
      if from.port == senderAddr.value.port then 0 else size
    }
  }

  /** The self-echo filter compares ports only: in host order, a datagram
      is dropped exactly when its source port is sender_addr's port (or it
      is empty), whatever its source address and family. */
  lemma ReadFiltersByPortOnly(d: McastData, size: int, from: SockAddrIn, other: SockAddrIn)
    requires d.senderAddr.Some?
    ensures d.UserRead(size, from) == 0 <==> (Ntohs(from.port) == Ntohs(d.senderAddr.value.port) || size == 0)
    ensures Ntohs(from.port) != Ntohs(d.senderAddr.value.port) ==> d.UserRead(size, from) == size
    ensures other.port == from.port ==> d.UserRead(size, other) == d.UserRead(size, from)
  {
    NtohsInjective(from.port, d.senderAddr.value.port);
  }

  /** mcast_user_write ignores the descriptor it is given: any two calls
      that differ only in it send the same thing and return the same. */
  lemma WriteIgnoresFd(d: McastData, fd1: int, fd2: int, buf: seq<bv8>, len: int,
                       netSendto: (int, seq<bv8>, int, Option<SockAddrIn>) -> int)
    ensures d.UserWrite(fd1, buf, len, netSendto) == d.UserWrite(fd2, buf, len, netSendto)
  {
  }
}
