/**
 The process's open file descriptors and its epoll set. Which descriptors the kernel hands out, and which of its
 calls fail, is left open; what is closed must be open, so nothing is closed twice.
 */
module Kernel {
  import opened CTypes
  import opened Protocol
  import opened Wrappers

  /** The descriptors among a list; a negative entry stands for none. */
  ghost function Fds(fds: seq<int32>): set<int32> {
    set f | f in fds && f >= 0
  }

  /** Pairwise different descriptors, none of them open before. */
  ghost predicate NewDescriptors(fds: seq<int32>, open: set<int32>) {
    && (forall f | f in fds :: f < 0 || f !in open)
    && (forall i, j | 0 <= i < j < |fds| && fds[i] >= 0 :: fds[i] != fds[j])
  }

  /** Every descriptor of the list refers to the storage of that texture. */
  ghost predicate AllShow(fds: seq<int32>, shows: map<int32, nat>, texture: nat) {
    forall f | f in fds && f >= 0 :: f in shows && shows[f] == texture
  }

  /** What a call of accept, epoll_ctl or recvmsg came back with. */
  datatype Decision = Connected(fd: int32) | Added(ok: bool) | Heard(message: Message)

  /** What epoll reports about one descriptor. */
  datatype Ready = NewConnection | Broken(fd: int32) | Readable(fd: int32)

  const BATCH_MAX := 32

  /** The reports of one epoll_wait: no descriptor twice, and only watched ones besides the server socket. */
  predicate Reported(watched: set<int32>, ready: seq<Ready>) {
    && |ready| <= BATCH_MAX
    && (forall i | 0 <= i < |ready| && !ready[i].NewConnection? :: ready[i].fd in watched)
    && Once(ready)
  }

  predicate Once(ready: seq<Ready>) {
    forall i, j | 0 <= i < j < |ready| && !ready[i].NewConnection? && !ready[j].NewConnection? ::
      ready[i].fd != ready[j].fd
  }

  /** How epoll_wait came back: cut short by a signal, with an error, or with reports, none on a timeout. */
  datatype Poll = Interrupted | Failed | Reports(ready: seq<Ready>)

  class Epoll {
    ghost var polls: seq<Poll>  // every epoll_wait so far

    constructor ()
      ensures polls == []
    {
      polls := [];
    }

    method Wait(process: Process) returns (poll: Poll)
      modifies this
      ensures polls == old(polls) + [poll]
      ensures poll.Reports? ==> Reported(process.watched, poll.ready)
    {
      poll := *;
      if poll.Reports? && !Reported(process.watched, poll.ready) {
        poll := Interrupted;
      }
      polls := polls + [poll];
    }
  }

  class Process {
    var open: set<int32>
    var watched: set<int32>            // the client descriptors in the epoll set
    ghost var shows: map<int32, nat>   // the texture behind each open descriptor that was exported
    ghost var decisions: seq<Decision> // in order
    ghost var allocations: seq<bool>   // the outcome of each calloc, in order

    constructor (open: set<int32>)
      ensures this.open == open && watched == {} && shows == map[] && decisions == [] && allocations == []
    {
      this.open, watched, shows, decisions, allocations := open, {}, map[], [], [];
    }

    /** calloc */
    method Allocate() returns (ok: bool)
      modifies this`allocations
      ensures allocations == old(allocations) + [ok]
    {
      ok := *;
      allocations := allocations + [ok];
    }

    /** The texture behind a descriptor, if it was exported. */
    ghost function Behind(fd: int32): Option<nat>
      reads this
    {
      if fd >= 0 && fd in shows then Some(shows[fd]) else None
    }

    method EpollAdd(fd: int32) returns (ok: bool)
      modifies this`watched, this`decisions
      ensures watched == if ok then old(watched) + {fd} else old(watched)
      ensures decisions == old(decisions) + [Added(ok)]
    {
      ok := *;
      decisions := decisions + [Added(ok)];
      if ok {
        watched := watched + {fd};
      }
    }

    method EpollDel(fd: int32)
      modifies this`watched
      ensures watched == old(watched) - {fd}
    {
      watched := watched - {fd};
    }

    /** Any call that yields a descriptor that was not open, or -1. */
    method NewFd() returns (fd: int32)
      modifies this`open, this`shows
      ensures fd == -1 || (fd >= 0 && fd !in old(open))
      ensures open == old(open) + Fds([fd]) && shows == old(shows) - {fd}
    {
      fd := *;
      if fd < 0 || fd in open {
        fd := -1;
      } else {
        open := open + {fd};
      }
      shows := shows - {fd};
    }

    method Accept() returns (fd: int32)
      modifies this`open, this`shows, this`decisions
      ensures fd < 0 || fd !in old(open)
      ensures open == old(open) + Fds([fd]) && decisions == old(decisions) + [Connected(fd)]
    {
      fd := NewFd();
      decisions := decisions + [Connected(fd)];
    }

    /** recv_with_fd: descriptors that come along belong to us from here on. */
    method Receive() returns (m: Message)
      modifies this`open, this`shows, this`decisions
      ensures NewDescriptors(Carried(m), old(open))
      ensures open == old(open) + Fds(Carried(m)) && decisions == old(decisions) + [Heard(m)]
    {
      var fd := NewFd();
      var extra := -1;
      if fd >= 0 {
        extra := NewFd();
      }
      var request: Option<Request> := *;
      m := Message(request, fd, extra);
      assert Fds(Carried(m)) == Fds([fd]) + Fds([extra]);
      decisions := decisions + [Heard(m)];
    }

    method Close(fd: int32)
      requires fd in open
      modifies this`open
      ensures open == old(open) - {fd}
    {
      open := open - {fd};
    }

    /** The descriptors of an exported texture: one per plane, -1 where a plane shares an earlier one. */
    method NewBuffers(count: nat, ghost texture: nat) returns (fds: seq<int32>)
      modifies this`open, this`shows
      ensures |fds| == count && NewDescriptors(fds, old(open)) && AllShow(fds, shows, texture)
      ensures open == old(open) + Fds(fds)
    {
      fds := [];
      for i := 0 to count
        invariant |fds| == i && NewDescriptors(fds, old(open)) && AllShow(fds, shows, texture)
        invariant open == old(open) + Fds(fds)
      {
        var fd := NewFd();
        shows := shows[fd := texture];
        assert Fds(fds + [fd]) == Fds(fds) + Fds([fd]);
        assert forall f | f in fds && f >= 0 :: f in Fds(fds);
        fds := fds + [fd];
      }
    }
  }
}
