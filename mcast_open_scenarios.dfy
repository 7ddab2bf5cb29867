/** Whole runs of mcast_open for given host outcomes: the send-port probe
    meeting k ports in use and then a free one, another bind error, or all
    64 ports in use. */
module McastOpenScenarios {
  import opened HostSockets
  import opened McastUser
  import opened McastOpenProps
  import opened McastOpenFds

  /** k outcomes of EADDRINUSE in a row. */
  function InUse(k: nat): seq<Outcome> {
    seq(k, j => Err(EADDRINUSE))
  }

  lemma {:induction false} InUseLeads(k: nat, tail: seq<Outcome>)
    ensures LeadingInUse(InUse(k) + tail) == k + LeadingInUse(tail)
    ensures |InUse(k)| == k
    ensures forall j :: 0 <= j < k ==> OutcomeAt(InUse(k) + tail, j) == Err(EADDRINUSE)
    ensures Drop(InUse(k) + tail, k) == tail
    ensures OutcomeAt(InUse(k) + tail, k) == OutcomeAt(tail, 0)
    ensures Drop(InUse(k) + tail, k + 1) == Drop(tail, 1)
  {
    if k > 0 {
      InUseLeads(k - 1, tail);
      assert InUse(k) == [Err(EADDRINUSE)] + InUse(k - 1);
      assert InUse(k) + tail == [Err(EADDRINUSE)] + (InUse(k - 1) + tail);
      assert (InUse(k) + tail)[1..] == InUse(k - 1) + tail;
      forall j | 0 <= j < k
        ensures OutcomeAt(InUse(k) + tail, j) == Err(EADDRINUSE)
      {
        if j > 0 {
          assert OutcomeAt(InUse(k) + tail, j) == OutcomeAt(InUse(k - 1) + tail, j - 1);
        }
      }
    } else {
      assert InUse(k) == [];
      assert InUse(k) + tail == tail;
    }
  }

  /** The host once the send socket (`os.next`) exists and has its two options. */
  function SendReady(ttl: int, os: Os): Os {
    var s := Socket(os);
    var a := SetSockOpt(s.os, os.next, MulticastTtl(ttl));
    SetSockOpt(a.os, os.next, MulticastLoop(true)).os
  }

  /** With a valid group and three successes first, mcast_open reaches the
      port probe of the new send socket. */
  lemma OpenReachesProbe(g: SockAddrIn, ttl: int, sender: Option<SockAddrIn>, sendFd: int, os: Os, tail: seq<Outcome>)
    requires os.Valid() && g.addr != 0 && g.port != ZeroPort
    requires os.results == [Ok, Ok, Ok] + tail
    ensures OpenEffect(g, ttl, sender, sendFd, os) == SendProbe(g, ttl, sender, sendFd, os.next, SendReady(ttl, os))
    ensures var b := SendReady(ttl, os);
      && b.Valid() && b.results == tail && b.next == os.next + 1
      && b.openFds == os.openFds + {os.next} && b.bound == os.bound - {os.next}
      && Tally(os, b, [os.next], [])
  {
    assert Rest(os.results) == [Ok, Ok] + tail;
    assert Rest([Ok, Ok] + tail) == [Ok] + tail;
    assert Rest([Ok] + tail) == tail;
    var s := Socket(os);
    var a := SetSockOpt(s.os, os.next, MulticastTtl(ttl));
    SocketCounted(os);
    OptionsAreQuiet(s.os, os.next, MulticastTtl(ttl), Unset);
    OptionsAreQuiet(a.os, os.next, MulticastLoop(true), Unset);
    QuietTrans(s.os, a.os, SendReady(ttl, os));
    ExtendsTrans(os, s.os, SendReady(ttl, os));
  }

  /** The probe from a host whose first k outcomes are EADDRINUSE and the
      next one is not, k below 64: it stops after k + 1 binds, on the
      candidate for port + k + 1, with the end that outcome causes. */
  lemma ProbeAfterInUse(os: Os, fd: int, portnum: int, k: nat)
    requires k < BindTries && LeadingInUse(os.results) == k
    ensures var p := Probe(os, fd, portnum, 0, Unset);
      && p.tries == k + 1 && p.end == EndOf(OutcomeAt(os.results, k))
      && p.sender == SenderCandidate(portnum + k + 1)
      && p.os.results == Drop(os.results, k + 1) && p.os.next == os.next && p.os.openFds == os.openFds
      && p.os.bound == (if p.end.Bound? then os.bound[fd := p.sender] else os.bound)
  {
    ProbeStopsAtFirstOther(os, fd, portnum, 0, Unset);
    ProbeCounts(os, fd, portnum, 0, Unset);
    ProbeConsumes(os, fd, portnum, 0, Unset);
  }

  /** The probe from a host whose first 64 outcomes are EADDRINUSE ends
      Exhausted after 64 binds, having bound nothing. */
  lemma ProbeAllInUse(os: Os, fd: int, portnum: int)
    requires LeadingInUse(os.results) >= BindTries
    ensures var p := Probe(os, fd, portnum, 0, Unset);
      && p.end == Exhausted && p.tries == BindTries && p.os.results == Drop(os.results, BindTries)
      && p.os.next == os.next && p.os.openFds == os.openFds && p.os.bound == os.bound
  {
    ProbeStopsAtFirstOther(os, fd, portnum, 0, Unset);
    ProbeCounts(os, fd, portnum, 0, Unset);
    ProbeConsumes(os, fd, portnum, 0, Unset);
  }

  /** With nothing but successes left, the receive half returns the new
      receive descriptor and keeps sender_addr and send_fd. */
  lemma RecvAllOk(g: SockAddrIn, ttl: int, sender: Option<SockAddrIn>, sendFd: int, os: Os)
    requires os.results == []
    ensures var run := RecvPhase(g, ttl, sender, sendFd, os);
      run.ret == os.next && run.sender == sender && run.sendFd == sendFd
  {
  }

  /** SendProbe when the probe meets k ports in use and then error e. */
  lemma SendProbeBindError(g: SockAddrIn, ttl: int, sender: Option<SockAddrIn>, sendFd: int, fd: int, os: Os,
                           k: nat, e: Errno)
    requires k < BindTries && e != EADDRINUSE
    requires LeadingInUse(os.results) == k && OutcomeAt(os.results, k) == Err(e)
    ensures var run := SendProbe(g, ttl, sender, sendFd, fd, os);
      && run.ret == -(e as int) && run.sendFd == sendFd
      && run.sender == Some(SenderCandidate(Ntohs(g.port) + k + 1))
      && Tally(os, run.os, [], [fd]) && run.os.openFds == os.openFds - {fd}
  {
    ProbeAfterInUse(os, fd, Ntohs(g.port), k);
    var p := Probe(os, fd, Ntohs(g.port), 0, Unset);
    ProbeIsQuiet(os, fd, Ntohs(g.port));
    CloseCounted(p.os, fd);
    ExtendsTrans(os, p.os, Close(p.os, fd));
  }

  /** SendProbe when the probe ends without a bind error (Bound or
      Exhausted) and only successes are left afterwards: the receive
      socket is returned and sender_addr is what getsockname reports. */
  lemma SendProbeOpens(g: SockAddrIn, ttl: int, sender: Option<SockAddrIn>, sendFd: int, fd: int, os: Os)
    requires var p := Probe(os, fd, Ntohs(g.port), 0, Unset); !p.end.BindFailed? && p.os.results == []
    ensures var p := Probe(os, fd, Ntohs(g.port), 0, Unset); var run := SendProbe(g, ttl, sender, sendFd, fd, os);
      && run.ret == p.os.next && run.sendFd == fd
      && run.sender == Some(BoundName(p.os, fd))
  {
    var p := Probe(os, fd, Ntohs(g.port), 0, Unset);
    var n := GetSockName(p.os, fd);
    RecvAllOk(g, ttl, Some(BoundName(n.os, fd)), fd, n.os);
  }

  /** SendProbe when the probe meets k ports in use and then a free one,
      with only successes afterwards. */
  lemma SendProbeFreePort(g: SockAddrIn, ttl: int, sender: Option<SockAddrIn>, sendFd: int, fd: int, os: Os, k: nat)
    requires k < BindTries && LeadingInUse(os.results) == k
    requires OutcomeAt(os.results, k) == Ok && Drop(os.results, k + 1) == []
    ensures var run := SendProbe(g, ttl, sender, sendFd, fd, os);
      && run.ret == os.next && run.sendFd == fd
      && run.sender.Some? && run.sender.value.family == AF_INET && run.sender.value.addr == 0
      && Ntohs(run.sender.value.port) == (Ntohs(g.port) + k + 1) % 0x1_0000
  {
    ProbeAfterInUse(os, fd, Ntohs(g.port), k);
    var p := Probe(os, fd, Ntohs(g.port), 0, Unset);
    assert BoundName(p.os, fd).port == SenderCandidate(Ntohs(g.port) + k + 1).port;
    SendProbeOpens(g, ttl, sender, sendFd, fd, os);
    CandidatePort(Ntohs(g.port) + k + 1);
  }

  /** A bind error other than EADDRINUSE, after k ports in use: mcast_open
      returns the negated errno, having closed the send socket and nothing
      else, with send_fd untouched and sender_addr left at the candidate
      that failed, port (group port + k + 1) mod 65536. */
  lemma BindErrorClosesSendSocket(g: SockAddrIn, ttl: int, sender: Option<SockAddrIn>, sendFd: int,
                                  os: Os, k: nat, e: Errno, tail: seq<Outcome>)
    requires os.Valid() && g.addr != 0 && g.port != ZeroPort
    requires k < BindTries && e != EADDRINUSE
    requires os.results == [Ok, Ok, Ok] + InUse(k) + [Err(e)] + tail
    ensures var run := OpenEffect(g, ttl, sender, sendFd, os);
      && run.ret == -(e as int) && run.sendFd == sendFd
      && Tally(os, run.os, [os.next], [os.next]) && run.os.openFds == os.openFds
      && run.sender == Some(SenderCandidate(Ntohs(g.port) + k + 1))
      && Ntohs(run.sender.value.port) == (Ntohs(g.port) + k + 1) % 0x1_0000
  {
    assert os.results == [Ok, Ok, Ok] + (InUse(k) + ([Err(e)] + tail));
    OpenReachesProbe(g, ttl, sender, sendFd, os, InUse(k) + ([Err(e)] + tail));
    var b := SendReady(ttl, os);
    InUseLeads(k, [Err(e)] + tail);
    assert LeadingInUse([Err(e)] + tail) == 0;
    SendProbeBindError(g, ttl, sender, sendFd, os.next, b, k, e);
    var run := SendProbe(g, ttl, sender, sendFd, os.next, b);
    ExtendsTrans(os, b, run.os);
    CandidatePort(Ntohs(g.port) + k + 1);
  }

  /** A free port after k in use, and success from then on: mcast_open
      returns the new receive descriptor, send_fd holds the send socket,
      and sender_addr is what getsockname reports for it: family AF_INET,
      the wildcard address, port (group port + k + 1) mod 65536. */
  lemma ProbeFindsFreePort(g: SockAddrIn, ttl: int, sender: Option<SockAddrIn>, sendFd: int, os: Os, k: nat)
    requires os.Valid() && g.addr != 0 && g.port != ZeroPort
    requires k < BindTries
    requires os.results == [Ok, Ok, Ok] + InUse(k)
    ensures var run := OpenEffect(g, ttl, sender, sendFd, os);
      && run.ret == os.next + 1 && run.sendFd == os.next
      && run.sender.Some? && run.sender.value.family == AF_INET && run.sender.value.addr == 0
      && Ntohs(run.sender.value.port) == (Ntohs(g.port) + k + 1) % 0x1_0000
  {
    OpenReachesProbe(g, ttl, sender, sendFd, os, InUse(k));
    var b := SendReady(ttl, os);
    InUseLeads(k, []);
    assert InUse(k) + [] == InUse(k);
    SendProbeFreePort(g, ttl, sender, sendFd, os.next, b, k);
  }

  /** All 64 candidate ports in use is not an error: mcast_open goes on to
      getsockname and, with success from then on, opens; sender_addr then
      holds what getsockname reports for the unbound send socket, port 0. */
  lemma ExhaustedProbeStillOpens(g: SockAddrIn, ttl: int, sender: Option<SockAddrIn>, sendFd: int, os: Os)
    requires os.Valid() && g.addr != 0 && g.port != ZeroPort
    requires os.results == [Ok, Ok, Ok] + InUse(BindTries)
    ensures var run := OpenEffect(g, ttl, sender, sendFd, os);
      && run.ret == os.next + 1 && run.sendFd == os.next
      && run.sender == Some(SockAddrIn(AF_INET, 0, ZeroPort))
  {
    var fd := os.next;
    OpenReachesProbe(g, ttl, sender, sendFd, os, InUse(BindTries));
    var b := SendReady(ttl, os);
    InUseLeads(BindTries, []);
    assert InUse(BindTries) + [] == InUse(BindTries);
    ProbeAllInUse(b, fd, Ntohs(g.port));
    SendProbeOpens(g, ttl, sender, sendFd, fd, b);
  }
}
