/** Which descriptors one call of mcast_open creates, closes and leaves
    open, on every path through it. Stated about `OpenEffect`, which
    `McastData.Open` is proved to implement. */
module McastOpenFds {
  import opened HostSockets
  import opened McastUser
  import opened McastOpenProps

  /** From `os` on, the run creates nothing and leaves sender_addr and
      send_fd as given; it either returns `fd` and closes nothing, or
      returns a negative value after closing `fd` and nothing else. */
  predicate HoldsOnly(os: Os, run: Opened, fd: int, sender: Option<SockAddrIn>, sendFd: int) {
    && Extends(os, run.os) && run.sender == sender && run.sendFd == sendFd
    && Sockets(run.os.trace) == Sockets(os.trace) && run.os.next == os.next
    && ((run.ret == fd && Closes(run.os.trace) == Closes(os.trace) && run.os.openFds == os.openFds)
        || (run.ret < 0 && Closes(run.os.trace) == Closes(os.trace) + [fd]
            && run.os.openFds == os.openFds - {fd}))
  }

  lemma CloseAndFailHoldsOnly(e: Errno, os: Os, fd: int, sender: Option<SockAddrIn>, sendFd: int)
    ensures HoldsOnly(os, CloseAndFail(e, os, fd, sender, sendFd), fd, sender, sendFd)
  {
    CloseCounted(os, fd);
  }

  lemma QuietThenHoldsOnly(a: Os, b: Os, run: Opened, fd: int, sender: Option<SockAddrIn>, sendFd: int)
    requires Quiet(a, b) && HoldsOnly(b, run, fd, sender, sendFd)
    ensures HoldsOnly(a, run, fd, sender, sendFd)
  {
    ExtendsTrans(a, b, run.os);
  }

  /** A step that is quiet and then either fails through out_close or
      goes on to a run that holds only `fd`: the whole holds only `fd`. */
  lemma StepHoldsOnly(os: Os, st: Step, rest: Opened, fd: int, sender: Option<SockAddrIn>, sendFd: int)
    requires Quiet(os, st.os)
    requires st.result.Done? ==> HoldsOnly(st.os, rest, fd, sender, sendFd)
    ensures var run := if st.result.Failed? then CloseAndFail(st.result.errno, st.os, fd, sender, sendFd) else rest;
      HoldsOnly(os, run, fd, sender, sendFd)
  {
    if st.result.Failed? {
      CloseAndFailHoldsOnly(st.result.errno, st.os, fd, sender, sendFd);
    }
    var run := if st.result.Failed? then CloseAndFail(st.result.errno, st.os, fd, sender, sendFd) else rest;
    QuietThenHoldsOnly(os, st.os, run, fd, sender, sendFd);
  }

  /** After the receive socket `fd` exists, mcast_open either returns it or
      closes it again, and touches nothing else. */
  lemma RecvSetupHoldsOnly(g: SockAddrIn, ttl: int, sender: Option<SockAddrIn>, sendFd: int, fd: int, os: Os)
    ensures HoldsOnly(os, RecvSetup(g, ttl, sender, sendFd, fd, os), fd, sender, sendFd)
  {
    var a := SetSockOpt(os, fd, ReuseAddr(true));
    var b := SetSockOpt(a.os, fd, MulticastTtl(ttl));
    var c := SetSockOpt(b.os, fd, MulticastLoop(true));
    OptionsAreQuiet(os, fd, ReuseAddr(true), g);
    OptionsAreQuiet(a.os, fd, MulticastTtl(ttl), g);
    OptionsAreQuiet(b.os, fd, MulticastLoop(true), g);
    var join := RecvJoin(g, sender, sendFd, fd, c.os);
    RecvJoinHoldsOnly(g, sender, sendFd, fd, c.os);
    StepHoldsOnly(b.os, c, join, fd, sender, sendFd);
    var r3 := if c.result.Failed? then CloseAndFail(c.result.errno, c.os, fd, sender, sendFd) else join;
    StepHoldsOnly(a.os, b, r3, fd, sender, sendFd);
    var r2 := if b.result.Failed? then CloseAndFail(b.result.errno, b.os, fd, sender, sendFd) else r3;
    StepHoldsOnly(os, a, r2, fd, sender, sendFd);
  }

  lemma RecvJoinHoldsOnly(g: SockAddrIn, sender: Option<SockAddrIn>, sendFd: int, fd: int, os: Os)
    ensures HoldsOnly(os, RecvJoin(g, sender, sendFd, fd, os), fd, sender, sendFd)
  {
    var d := Bind(os, fd, g);
    var m := SetSockOpt(d.os, fd, AddMembership(g.addr, 0));
    OptionsAreQuiet(os, fd, AddMembership(g.addr, 0), g);
    OptionsAreQuiet(d.os, fd, AddMembership(g.addr, 0), g);
    var done := Opened(fd, m.os, sender, sendFd);
    StepHoldsOnly(d.os, m, done, fd, sender, sendFd);
    var r5 := if m.result.Failed? then CloseAndFail(m.result.errno, m.os, fd, sender, sendFd) else done;
    StepHoldsOnly(os, d, r5, fd, sender, sendFd);
  }

  /** What mcast_open does from the point where send_fd holds `sendFd`,
      described relative to the host `os` there, whose next descriptor is
      the receive socket `os.next`: the receive socket() fails and nothing
      is created or closed; or the receive socket is created and closed
      again after a later failure; or it is created, kept and returned. */
  predicate RecvOutcome(os: Os, run: Opened, sendFd: int) {
    var s0, c0, f := Sockets(os.trace), Closes(os.trace), os.next;
    && Extends(os, run.os) && run.sendFd == sendFd
    && (|| (&& run.ret < 0 && Sockets(run.os.trace) == s0 && Closes(run.os.trace) == c0
            && run.os.openFds == os.openFds && run.os.next == os.next)
        || (&& run.ret < 0 && Sockets(run.os.trace) == s0 + [f] && Closes(run.os.trace) == c0 + [f]
            && run.os.openFds == os.openFds && run.os.next == os.next + 1)
        || (&& run.ret == f && Sockets(run.os.trace) == s0 + [f] && Closes(run.os.trace) == c0
            && run.os.openFds == os.openFds + {f} && run.os.next == os.next + 1))
  }

  lemma RecvPhaseOutcome(g: SockAddrIn, ttl: int, sender: Option<SockAddrIn>, sendFd: int, os: Os)
    requires os.Valid()
    ensures RecvOutcome(os, RecvPhase(g, ttl, sender, sendFd, os), sendFd)
    ensures RecvPhase(g, ttl, sender, sendFd, os).sender == sender
  {
    var s := Socket(os);
    SocketCounted(os);
    if s.result.Done? {
      RecvSetupHoldsOnly(g, ttl, sender, sendFd, s.result.value, s.os);
      ExtendsTrans(os, s.os, RecvPhase(g, ttl, sender, sendFd, os).os);
    }
  }

  /** What mcast_open does once the send socket `fd` exists, relative to the
      host `os` then: a failure before send_fd is stored closes `fd` and
      nothing else and leaves send_fd alone; otherwise send_fd becomes `fd`
      and the receive half follows from a host that differs from `os` only
      in its trace. */
  predicate SendOutcome(os: Os, run: Opened, fd: int, sendFd: int) {
    || (&& Extends(os, run.os) && run.ret < 0 && run.sendFd == sendFd
        && Sockets(run.os.trace) == Sockets(os.trace) && Closes(run.os.trace) == Closes(os.trace) + [fd]
        && run.os.openFds == os.openFds - {fd} && run.os.next == os.next)
    || RecvOutcome(os, run, fd)
  }

  lemma QuietThenSendOutcome(a: Os, b: Os, run: Opened, fd: int, sendFd: int)
    requires Quiet(a, b) && SendOutcome(b, run, fd, sendFd)
    ensures SendOutcome(a, run, fd, sendFd)
  {
    ExtendsTrans(a, b, run.os);
  }

  /** A quiet step that either fails through out_close (with whatever
      sender_addr) or goes on to a run with a SendOutcome. */
  lemma StepSendOutcome(os: Os, st: Step, rest: Opened, fd: int, sender: Option<SockAddrIn>, sendFd: int)
    requires Quiet(os, st.os)
    requires st.result.Done? ==> SendOutcome(st.os, rest, fd, sendFd)
    ensures var run := if st.result.Failed? then CloseAndFail(st.result.errno, st.os, fd, sender, sendFd) else rest;
      SendOutcome(os, run, fd, sendFd)
  {
    if st.result.Failed? {
      CloseCounted(st.os, fd);
    }
    var run := if st.result.Failed? then CloseAndFail(st.result.errno, st.os, fd, sender, sendFd) else rest;
    QuietThenSendOutcome(os, st.os, run, fd, sendFd);
  }

  lemma SendPhaseOutcome(g: SockAddrIn, ttl: int, sender: Option<SockAddrIn>, sendFd: int, fd: int, os: Os)
    requires os.Valid()
    ensures SendOutcome(os, SendPhase(g, ttl, sender, sendFd, fd, os), fd, sendFd)
  {
    var a := SetSockOpt(os, fd, MulticastTtl(ttl));
    var b := SetSockOpt(a.os, fd, MulticastLoop(true));
    OptionsAreQuiet(os, fd, MulticastTtl(ttl), g);
    OptionsAreQuiet(a.os, fd, MulticastLoop(true), g);
    var rest := SendProbe(g, ttl, sender, sendFd, fd, b.os);
    SendProbeOutcome(g, ttl, sender, sendFd, fd, b.os);
    var r2 := if b.result.Failed? then CloseAndFail(b.result.errno, b.os, fd, sender, sendFd) else rest;
    StepSendOutcome(a.os, b, rest, fd, sender, sendFd);
    StepSendOutcome(os, a, r2, fd, sender, sendFd);
  }

  lemma SendProbeOutcome(g: SockAddrIn, ttl: int, sender: Option<SockAddrIn>, sendFd: int, fd: int, os: Os)
    requires os.Valid()
    ensures SendOutcome(os, SendProbe(g, ttl, sender, sendFd, fd, os), fd, sendFd)
  {
    var p := Probe(os, fd, Ntohs(g.port), 0, Unset);
    var n := GetSockName(p.os, fd);
    ProbeIsQuiet(os, fd, Ntohs(g.port));
    OptionsAreQuiet(p.os, fd, MulticastLoop(true), g);
    var recv := RecvPhase(g, ttl, Some(BoundName(n.os, fd)), fd, n.os);
    if n.result.Done? {
      RecvPhaseOutcome(g, ttl, Some(BoundName(n.os, fd)), fd, n.os);
    }
    var r4 := if n.result.Failed? then CloseAndFail(n.result.errno, n.os, fd, Some(p.sender), sendFd) else recv;
    StepSendOutcome(p.os, n, recv, fd, Some(p.sender), sendFd);
    if p.end.BindFailed? {
      CloseCounted(p.os, fd);
    }
    var r3 := if p.end.BindFailed? then CloseAndFail(p.end.errno, p.os, fd, Some(p.sender), sendFd) else r4;
    assert SendOutcome(p.os, r3, fd, sendFd);
    QuietThenSendOutcome(os, p.os, r3, fd, sendFd);
  }

  lemma Cancel(a: seq<int>, b: seq<int>, b': seq<int>)
    requires a + b == a + b'
    ensures b == b'
  {
    assert b == (a + b)[|a|..];
    assert b' == (a + b')[|a|..];
  }

  /** Between `os` and `after` the descriptors `created` were created and
      `closed` were closed, in that order. */
  predicate Tally(os: Os, after: Os, created: seq<int>, closed: seq<int>) {
    && Extends(os, after)
    && Sockets(after.trace) == Sockets(os.trace) + created
    && Closes(after.trace) == Closes(os.trace) + closed
  }

  /** The five ways one call of mcast_open, started on host `os`, can end,
      with `f0` and `f1` the descriptors the host hands out next. */
  predicate OpenPath(os: Os, run: Opened, sender: Option<SockAddrIn>, sendFd: int) {
    var f0, f1 := os.next, os.next + 1;
    // nothing created: invalid group, or the send socket() failed
    || (&& Tally(os, run.os, [], []) && run.ret < 0 && run.sendFd == sendFd && run.sender == sender
        && run.os.openFds == os.openFds && run.os.next == os.next)
    // a failure before send_fd is stored: the send socket is closed
    || (&& Tally(os, run.os, [f0], [f0]) && run.ret < 0 && run.sendFd == sendFd
        && run.os.openFds == os.openFds && run.os.next == f0 + 1)
    // the receive socket() failed: nothing closed, send_fd kept
    || (&& Tally(os, run.os, [f0], []) && run.ret < 0 && run.sendFd == f0
        && run.os.openFds == os.openFds + {f0} && run.os.next == f0 + 1)
    // a later failure: the receive socket is closed, send_fd kept
    || (&& Tally(os, run.os, [f0, f1], [f1]) && run.ret < 0 && run.sendFd == f0
        && run.os.openFds == os.openFds + {f0} && run.os.next == f1 + 1)
    // success
    || (&& Tally(os, run.os, [f0, f1], []) && run.ret == f1 && run.sendFd == f0
        && run.os.openFds == os.openFds + {f0, f1} && run.os.next == f1 + 1)
  }

  /** Once the send socket `os.next` exists (host `s`), a SendOutcome is one
      of the paths that create it. */
  lemma SendOutcomeIsPath(os: Os, s: Os, run: Opened, sender: Option<SockAddrIn>, sendFd: int)
    requires os.Valid() && Extends(os, s)
    requires s.next == os.next + 1 && s.openFds == os.openFds + {os.next}
    requires Sockets(s.trace) == Sockets(os.trace) + [os.next] && Closes(s.trace) == Closes(os.trace)
    requires SendOutcome(s, run, os.next, sendFd)
    ensures OpenPath(os, run, sender, sendFd)
  {
    ExtendsTrans(os, s, run.os);
    var f0, f1 := os.next, os.next + 1;
    assert Sockets(os.trace) + [f0] + [f1] == Sockets(os.trace) + [f0, f1];
    if !RecvOutcome(s, run, f0) {
      assert f0 !in os.openFds;
      assert run.os.openFds == os.openFds + {f0} - {f0} == os.openFds;
    }
  }

  lemma OpenPaths(g: SockAddrIn, ttl: int, sender: Option<SockAddrIn>, sendFd: int, os: Os)
    requires os.Valid()
    ensures OpenPath(os, OpenEffect(g, ttl, sender, sendFd, os), sender, sendFd)
  {
    var run := OpenEffect(g, ttl, sender, sendFd, os);
    if g.addr == 0 || g.port == ZeroPort {
      assert run.os == os;
    } else {
      var s := Socket(os);
      SocketCounted(os);
      if s.result.Done? {
        SendPhaseOutcome(g, ttl, sender, sendFd, os.next, s.os);
        SendOutcomeIsPath(os, s.os, run, sender, sendFd);
      }
    }
  }

  /** OpenDescriptors for any run that ends on one of the five paths. */
  lemma PathDescriptors(os: Os, run: Opened, sender: Option<SockAddrIn>, sendFd: int)
    requires os.Valid() && OpenPath(os, run, sender, sendFd)
    ensures Extends(os, run.os)
    ensures var n := run.os.trace[|os.trace|..]; var c, d := Sockets(n), Closes(n);
      && run.os.Valid()
      && |c| <= 2
      && (forall i :: 0 <= i < |c| ==> 0 <= c[i] && c[i] !in os.openFds)
      && (|c| == 2 ==> c[0] != c[1])
      && (run.ret >= 0 <==> |c| == 2 && d == [])
      && (run.ret >= 0 ==> run.ret == c[1] && run.sendFd == c[0] && run.os.openFds == os.openFds + {c[0], c[1]})
      && (c == [] ==> && d == [] && run.ret < 0 && run.sendFd == sendFd && run.sender == sender
                      && run.os.openFds == os.openFds)
      && (|c| == 1 ==> && run.ret < 0
                       && (|| (d == [c[0]] && run.sendFd == sendFd && run.os.openFds == os.openFds)
                           || (d == [] && run.sendFd == c[0] && run.os.openFds == os.openFds + {c[0]})))
      && (|c| == 2 ==> && run.sendFd == c[0]
                       && (d == [] || (d == [c[1]] && run.ret < 0 && run.os.openFds == os.openFds + {c[0]})))
  {
    var n := run.os.trace[|os.trace|..];
    assert run.os.trace == os.trace + n;
    SocketsClosesAppend(os.trace, n);
    var s0, c0 := Sockets(os.trace), Closes(os.trace);
    var c, d := Sockets(n), Closes(n);
    var f0, f1 := os.next, os.next + 1;
    if Tally(os, run.os, [], []) {
      Cancel(s0, c, []);
      Cancel(c0, d, []);
    } else if Tally(os, run.os, [f0], [f0]) {
      Cancel(s0, c, [f0]);
      Cancel(c0, d, [f0]);
    } else if Tally(os, run.os, [f0], []) {
      Cancel(s0, c, [f0]);
      Cancel(c0, d, []);
    } else if Tally(os, run.os, [f0, f1], [f1]) {
      Cancel(s0, c, [f0, f1]);
      Cancel(c0, d, [f1]);
    } else {
      Cancel(s0, c, [f0, f1]);
      Cancel(c0, d, []);
    }
  }

  /** The descriptors one call of mcast_open creates (`c`, in order) and
      closes (`d`): at most two, both new; success exactly when both were
      created and none closed, and then the second is returned and the
      first is in send_fd; an error path closes only the descriptor last
      created, and once send_fd is stored it is never closed. */
  lemma OpenDescriptors(g: SockAddrIn, ttl: int, sender: Option<SockAddrIn>, sendFd: int, os: Os)
    requires os.Valid()
    ensures Extends(os, OpenEffect(g, ttl, sender, sendFd, os).os)
    ensures var run := OpenEffect(g, ttl, sender, sendFd, os);
      var n := run.os.trace[|os.trace|..]; var c, d := Sockets(n), Closes(n);
      && run.os.Valid()
      && |c| <= 2
      && (forall i :: 0 <= i < |c| ==> 0 <= c[i] && c[i] !in os.openFds)
      && (|c| == 2 ==> c[0] != c[1])
      && (run.ret >= 0 <==> |c| == 2 && d == [])
      && (run.ret >= 0 ==> run.ret == c[1] && run.sendFd == c[0] && run.os.openFds == os.openFds + {c[0], c[1]})
      && (c == [] ==> && d == [] && run.ret < 0 && run.sendFd == sendFd && run.sender == sender
                      && run.os.openFds == os.openFds)
      && (|c| == 1 ==> && run.ret < 0
                       && (|| (d == [c[0]] && run.sendFd == sendFd && run.os.openFds == os.openFds)
                           || (d == [] && run.sendFd == c[0] && run.os.openFds == os.openFds + {c[0]})))
      && (|c| == 2 ==> && run.sendFd == c[0]
                       && (d == [] || (d == [c[1]] && run.ret < 0 && run.os.openFds == os.openFds + {c[0]})))
  {
    OpenPaths(g, ttl, sender, sendFd, os);
    PathDescriptors(os, OpenEffect(g, ttl, sender, sendFd, os), sender, sendFd);
  }

  /** mcast_open refuses a group with address 0 or port 0 with -EINVAL and
      makes no call at all; with any other group it makes at least one
      call (the send socket). */
  lemma InvalidGroupRejected(g: SockAddrIn, ttl: int, sender: Option<SockAddrIn>, sendFd: int, os: Os)
    requires os.Valid()
    ensures var run := OpenEffect(g, ttl, sender, sendFd, os);
      (g.addr == 0 || g.port == ZeroPort) ==> run == Opened(-EINVAL, os, sender, sendFd)
    ensures var run := OpenEffect(g, ttl, sender, sendFd, os);
      (g.addr == 0 || g.port == ZeroPort) <==> run.os.trace == os.trace
  {
    if g.addr != 0 && g.port != ZeroPort {
      var s := Socket(os);
      SocketCounted(os);
      assert |s.os.trace| == |os.trace| + 1;
      if s.result.Done? {
        SendPhaseOutcome(g, ttl, sender, sendFd, s.result.value, s.os);
      }
    }
  }
}
