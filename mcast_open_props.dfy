/** Properties of mcast_open, stated about its specification `OpenEffect`
    (which `McastData.Open` is proved to implement) and about the send-port
    probe `Probe` (which `McastData.ProbeSendPort` is proved to implement). */
module McastOpenProps {
  import opened HostSockets
  import opened McastUser

  // ---------------------------------------------------------------------
  // The send-port probe

  /** The number of EADDRINUSE outcomes at the head of the supplied outcomes. */
  function LeadingInUse(results: seq<Outcome>): nat {
    if results != [] && results[0] == Err(EADDRINUSE) then 1 + LeadingInUse(results[1..]) else 0
  }

  /** LeadingInUse counts exactly the leading EADDRINUSE outcomes. */
  lemma {:induction false} LeadingInUseSpec(results: seq<Outcome>)
    ensures forall k :: 0 <= k < LeadingInUse(results) ==> OutcomeAt(results, k) == Err(EADDRINUSE)
    ensures OutcomeAt(results, LeadingInUse(results)) != Err(EADDRINUSE)
  {
    if results != [] && results[0] == Err(EADDRINUSE) {
      LeadingInUseSpec(results[1..]);
      forall k | 0 <= k < LeadingInUse(results)
        ensures OutcomeAt(results, k) == Err(EADDRINUSE)
      {
        if k > 0 {
          assert OutcomeAt(results, k) == OutcomeAt(results[1..], k - 1);
        }
      }
      assert OutcomeAt(results, LeadingInUse(results)) == OutcomeAt(results[1..], LeadingInUse(results[1..]));
    }
  }

  lemma RestShifts(results: seq<Outcome>, k: nat)
    ensures OutcomeAt(Rest(results), k) == OutcomeAt(results, k + 1)
    ensures NextOutcome(results) == OutcomeAt(results, 0)
    ensures LeadingInUse(results) > 0 ==> LeadingInUse(Rest(results)) == LeadingInUse(results) - 1
  {
  }

  /** The end of the probe that a given bind outcome causes, when it is not EADDRINUSE. */
  function EndOf(o: Outcome): BindEnd {
    match o
    case Ok => Bound
    case Err(e) => BindFailed(e)
  }

  /** The calls a stretch of the probe added: binds of `fd` on the
      successive candidates after `portnum`. */
  predicate SuccessiveBinds(added: seq<Event>, fd: int, portnum: int) {
    forall k :: 0 <= k < |added| ==> added[k].call == BindCall(fd, SenderCandidate(portnum + 1 + k))
  }

  /** The probe from iteration i tries at least once if any tries remain,
      never more than 64 in all; the last address written is the candidate
      for the final counter value; of the descriptors it changes only the
      binding of `fd`, and that only when a bind succeeded. */
  lemma {:induction false} ProbeCounts(os: Os, fd: int, portnum: int, i: nat, sender: SockAddrIn)
    requires i <= BindTries
    ensures var p := Probe(os, fd, portnum, i, sender);
      && i <= p.tries <= BindTries
      && (i < BindTries ==> i < p.tries)
      && (p.tries > i ==> p.sender == SenderCandidate(portnum + (p.tries - i)))
      && p.os.openFds == os.openFds && p.os.next == os.next
      && p.os.bound == (if p.end.Bound? then os.bound[fd := p.sender] else os.bound)
    decreases BindTries - i
  {
    var p := Probe(os, fd, portnum, i, sender);
    if i < BindTries {
      var cand := SenderCandidate(portnum + 1);
      var st := Bind(os, fd, cand);
      if !(st.result.Failed? && st.result.errno == EADDRINUSE) {
        assert p.tries == i + 1 && p.sender == cand && p.os == st.os;
        assert portnum + (p.tries - i) == portnum + 1;
      } else {
        assert p == Probe(st.os, fd, portnum + 1, i + 1, cand);
        ProbeCounts(st.os, fd, portnum + 1, i + 1, cand);
        if p.tries > i + 1 {
          var a := portnum + 1 + (p.tries - (i + 1));
          assert a == portnum + (p.tries - i);
          assert p.sender == SenderCandidate(a);
        } else {
          assert p.tries == i + 1 && i + 1 == BindTries;
          assert p.sender == cand;
          assert portnum + (p.tries - i) == portnum + 1;
        }
      }
    }
  }

  /** The probe from iteration i adds one bind call per try, on the
      successive candidate ports, and nothing else. */
  lemma {:induction false} ProbeOnlyBinds(os: Os, fd: int, portnum: int, i: nat, sender: SockAddrIn)
    requires i <= BindTries
    ensures var p := Probe(os, fd, portnum, i, sender);
      Extends(os, p.os) && |p.os.trace| == |os.trace| + p.tries - i
    ensures var p := Probe(os, fd, portnum, i, sender);
      forall k :: |os.trace| <= k < |p.os.trace| ==>
        p.os.trace[k].call == BindCall(fd, SenderCandidate(portnum + 1 + k - |os.trace|))
    decreases BindTries - i
  {
    var p := Probe(os, fd, portnum, i, sender);
    if i < BindTries {
      var cand := SenderCandidate(portnum + 1);
      var st := Bind(os, fd, cand);
      assert st.os.trace == os.trace + [Event(BindCall(fd, cand), st.result)];
      if st.result.Failed? && st.result.errno == EADDRINUSE {
        assert p == Probe(st.os, fd, portnum + 1, i + 1, cand);
        ProbeOnlyBinds(st.os, fd, portnum + 1, i + 1, cand);
        ExtendsTrans(os, st.os, p.os);
        assert p.os.trace[|os.trace|] == st.os.trace[|os.trace|];
      }
    }
  }

  /** A trace continued only by binds on successive candidates. */
  lemma BindsAfter(a: Os, b: Os, fd: int, portnum: int)
    requires Extends(a, b)
    requires forall k :: |a.trace| <= k < |b.trace| ==>
      b.trace[k].call == BindCall(fd, SenderCandidate(portnum + 1 + k - |a.trace|))
    ensures b.trace == a.trace + b.trace[|a.trace|..]
    ensures SuccessiveBinds(b.trace[|a.trace|..], fd, portnum)
  {
    var added := b.trace[|a.trace|..];
    assert b.trace == a.trace + added;
    forall k | 0 <= k < |added|
      ensures added[k].call == BindCall(fd, SenderCandidate(portnum + 1 + k))
    {
      assert added[k] == b.trace[|a.trace| + k];
    }
  }

  /** The calls the whole probe adds, as one stretch of successive binds. */
  lemma ProbeAdded(os: Os, fd: int, portnum: int)
    ensures var p := Probe(os, fd, portnum, 0, Unset);
      |os.trace| <= |p.os.trace| && p.os.trace == os.trace + p.os.trace[|os.trace|..]
    ensures var p := Probe(os, fd, portnum, 0, Unset);
      SuccessiveBinds(p.os.trace[|os.trace|..], fd, portnum)
  {
    ProbeOnlyBinds(os, fd, portnum, 0, Unset);
    BindsAfter(os, Probe(os, fd, portnum, 0, Unset).os, fd, portnum);
  }

  /** Binds leave the descriptors opened and closed as they were. */
  lemma {:induction false} BindsKeepDescriptors(t: seq<Event>, added: seq<Event>, fd: int, portnum: int)
    requires SuccessiveBinds(added, fd, portnum)
    ensures Sockets(t + added) == Sockets(t) && Closes(t + added) == Closes(t)
    decreases |added|
  {
    if added != [] {
      var last := added[|added| - 1];
      var front := added[..|added| - 1];
      assert SuccessiveBinds(front, fd, portnum) by {
        forall k | 0 <= k < |front| ensures front[k].call == BindCall(fd, SenderCandidate(portnum + 1 + k)) {
          assert front[k] == added[k];
        }
      }
      BindsKeepDescriptors(t, front, fd, portnum);
      assert t + added == (t + front) + [last];
      assert last == added[|added| - 1];
      StepSummary(t + front, last);
    } else {
      assert t + added == t;
    }
  }

  /** The probe stops at the first outcome that is not EADDRINUSE, or after
      the last of the 64 tries. */
  lemma {:induction false} ProbeStopsAtFirstOther(os: Os, fd: int, portnum: int, i: nat, sender: SockAddrIn)
    requires i <= BindTries
    ensures var p := Probe(os, fd, portnum, i, sender); var n := LeadingInUse(os.results);
      if n < BindTries - i then p.tries == i + n + 1 && p.end == EndOf(OutcomeAt(os.results, n))
      else p.tries == BindTries && p.end == Exhausted
    decreases BindTries - i
  {
    if i < BindTries {
      var cand := SenderCandidate(portnum + 1);
      var st := Bind(os, fd, cand);
      LeadingInUseSpec(os.results);
      if LeadingInUse(os.results) > 0 {
        RestShifts(os.results, LeadingInUse(os.results) - 1);
      }
      if st.result.Failed? && st.result.errno == EADDRINUSE {
        ProbeStopsAtFirstOther(st.os, fd, portnum + 1, i + 1, cand);
      }
    }
  }

  /** The send-port probe as mcast_open runs it, from the group port g:
      between 1 and 64 binds of the send socket and no other call, the k-th
      (from 0) on port (g + 1 + k) mod 65536. */
  lemma ProbePorts(os: Os, fd: int, g: U16)
    ensures var p := Probe(os, fd, g, 0, Unset);
      1 <= p.tries <= BindTries && |os.trace| + p.tries == |p.os.trace|
    ensures var p := Probe(os, fd, g, 0, Unset); var added := p.os.trace[|os.trace|..];
      && p.os.trace == os.trace + added
      && forall k :: 0 <= k < |added| ==>
           added[k].call.BindCall? && added[k].call.fd == fd
           && Ntohs(added[k].call.addr.port) == (g + 1 + k) % 0x1_0000
  {
    var p := Probe(os, fd, g, 0, Unset);
    ProbeCounts(os, fd, g, 0, Unset);
    ProbeOnlyBinds(os, fd, g, 0, Unset);
    ProbeAdded(os, fd, g);
    var added := p.os.trace[|os.trace|..];
    forall k | 0 <= k < |added|
      ensures Ntohs(added[k].call.addr.port) == (g + 1 + k) % 0x1_0000
    {
      CandidatePort(g + 1 + k);
    }
  }

  /** Which outcomes drive the probe: every bind but the last met
      EADDRINUSE; the last succeeded (Bound), failed with another errno
      (BindFailed, with that errno), or was the 64th to meet EADDRINUSE
      (Exhausted). */
  lemma ProbeRetriesOnlyOnInUse(os: Os, fd: int, g: U16)
    ensures 1 <= Probe(os, fd, g, 0, Unset).tries
    ensures var p := Probe(os, fd, g, 0, Unset); var last := OutcomeAt(os.results, p.tries - 1);
      && (forall k :: 0 <= k < p.tries - 1 ==> OutcomeAt(os.results, k) == Err(EADDRINUSE))
      && (p.end == Bound <==> last == Ok)
      && (p.end.BindFailed? <==> last.Err? && last.errno != EADDRINUSE)
      && (p.end.BindFailed? ==> last == Err(p.end.errno))
      && (p.end == Exhausted <==> p.tries == BindTries && last == Err(EADDRINUSE))
  {
    ProbeCounts(os, fd, g, 0, Unset);
    ProbeStopsAtFirstOther(os, fd, g, 0, Unset);
    LeadingInUseSpec(os.results);
  }

  /** The probe creates and closes no descriptor. */
  lemma ProbeIsQuiet(os: Os, fd: int, portnum: int)
    ensures Quiet(os, Probe(os, fd, portnum, 0, Unset).os)
  {
    var p := Probe(os, fd, portnum, 0, Unset);
    ProbeCounts(os, fd, portnum, 0, Unset);
    ProbeAdded(os, fd, portnum);
    BindsKeepDescriptors(os.trace, p.os.trace[|os.trace|..], fd, portnum);
  }

  /** The probe consumes one outcome per try. */
  lemma {:induction false} ProbeConsumes(os: Os, fd: int, portnum: int, i: nat, sender: SockAddrIn)
    requires i <= BindTries
    ensures var p := Probe(os, fd, portnum, i, sender);
      i <= p.tries && p.os.results == Drop(os.results, p.tries - i)
    decreases BindTries - i
  {
    if i < BindTries {
      var cand := SenderCandidate(portnum + 1);
      var st := Bind(os, fd, cand);
      if st.result.Failed? && st.result.errno == EADDRINUSE {
        ProbeConsumes(st.os, fd, portnum + 1, i + 1, cand);
        DropRest(os.results, Probe(os, fd, portnum, i, sender).tries - (i + 1));
      }
    }
  }
}
