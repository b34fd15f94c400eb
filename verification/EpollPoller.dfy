/** The poller of muduo/net/poller/EpollPoller.cc against the kernel's interest set. */
module EpollPollers {
  import opened Channels

  datatype Ctl = CtlAdd | CtlMod | CtlDel

  /** What the kernel keeps for a descriptor: the mask and the pointer it will hand back. */
  datatype Watch = Watch(mask: set<Interest>, channel: Channel)

  datatype Op = EnableReading | DisableReading | EnableWriting | DisableWriting | DisableAll | Remove

  function Masked(op: Op, events: set<Interest>): set<Interest> {
    match op
    case EnableReading => events + {Read}
    case DisableReading => events - {Read}
    case EnableWriting => events + {Write}
    case DisableWriting => events - {Write}
    case DisableAll => {}
    case Remove => events
  }

  predicate Sets(op: Op, bit: Interest) {
    (op == EnableReading && bit == Read) || (op == EnableWriting && bit == Write)
  }

  predicate Clears(op: Op, bit: Interest) {
    op == DisableAll || (op == DisableReading && bit == Read) || (op == DisableWriting && bit == Write)
  }

  ghost predicate NeverCleared(ops: seq<(Channel, Op)>, from: nat, c: Channel, bit: Interest) {
    forall j :: from <= j < |ops| && ops[j].0 == c ==> !Clears(ops[j].1, bit)
  }

  /** After a series of operations on any channels a bit of `c` is set that the series set last, or that was set
      before and that it never cleared. */
  ghost predicate SetAfter(ops: seq<(Channel, Op)>, c: Channel, bit: Interest, before: bool) {
    || (before && NeverCleared(ops, 0, c, bit))
    || (exists k :: 0 <= k < |ops| && ops[k].0 == c && Sets(ops[k].1, bit) && NeverCleared(ops, k + 1, c, bit))
  }

  /** A removal goes through when the channel has no events. */
  ghost predicate NeverRemoved(ops: seq<(Channel, Op)>, from: nat, c: Channel, idle: bool) {
    idle ==> forall j :: from <= j < |ops| ==> ops[j] != (c, Remove)
  }

  /** After it `c` is registered when, since it was changed last, or from the beginning on if it was registered
      before, nothing removed it. */
  ghost predicate RegisteredAfter(ops: seq<(Channel, Op)>, c: Channel, before: bool, idle: bool) {
    || (before && NeverRemoved(ops, 0, c, idle))
    || (exists k :: 0 <= k < |ops| && ops[k].0 == c && ops[k].1 != Remove && NeverRemoved(ops, k + 1, c, idle))
  }

  lemma SetAfterOne(ops: seq<(Channel, Op)>, d: Channel, op: Op, c: Channel, bit: Interest, before: bool)
    ensures SetAfter(ops + [(d, op)], c, bit, before) <==>
              if d != c then SetAfter(ops, c, bit, before)
              else Sets(op, bit) || (SetAfter(ops, c, bit, before) && !Clears(op, bit))
  {
    var all := ops + [(d, op)];
    assert all[|ops|] == (d, op);
    forall from: nat | from <= |ops|
      ensures NeverCleared(all, from, c, bit) <==> NeverCleared(ops, from, c, bit) && (d == c ==> !Clears(op, bit))
    {
      assert forall j :: from <= j < |ops| ==> all[j] == ops[j];
    }
    if k :| 0 <= k < |ops| && ops[k].0 == c && Sets(ops[k].1, bit) && NeverCleared(ops, k + 1, c, bit) {
      assert all[k] == ops[k];
    }
  }

  lemma RegisteredAfterOne(ops: seq<(Channel, Op)>, d: Channel, op: Op, c: Channel, before: bool, idle: bool)
    ensures d != c ==> (RegisteredAfter(ops + [(d, op)], c, before, idle) <==> RegisteredAfter(ops, c, before, idle))
    ensures d == c && op != Remove ==> RegisteredAfter(ops + [(d, op)], c, before, idle)
    ensures d == c && op == Remove ==>
              (RegisteredAfter(ops + [(d, op)], c, before, idle) <==> RegisteredAfter(ops, c, before, idle) && !idle)
  {
    var all := ops + [(d, op)];
    assert all[|ops|] == (d, op);
    forall from: nat | from <= |ops|
      ensures NeverRemoved(all, from, c, idle) <==>
                NeverRemoved(ops, from, c, idle) && (idle ==> (d, op) != (c, Remove))
    {
      assert forall j :: from <= j < |ops| ==> all[j] == ops[j];
    }
    if k :| 0 <= k < |ops| && ops[k].0 == c && ops[k].1 != Remove && NeverRemoved(ops, k + 1, c, idle) {
      assert all[k] == ops[k];
    }
  }

  /** The two together: what a series makes of a channel's mask and of its registration. */
  ghost predicate Follows(ops: seq<(Channel, Op)>, c: Channel, events: set<Interest>, registered: bool,
                          events': set<Interest>, registered': bool)
  {
    && (forall bit: Interest :: bit in events' <==> SetAfter(ops, c, bit, bit in events))
    && (registered' <==> RegisteredAfter(ops, c, registered, events' == {}))
  }

  /** What one operation makes of the channel it is on; a removal that the assertions of `removeChannel` would
      stop is left out. */
  ghost predicate Applied(op: Op, events: set<Interest>, registered: bool, events': set<Interest>, registered': bool) {
    && (forall bit: Interest :: bit in events' <==> Sets(op, bit) || (bit in events && !Clears(op, bit)))
    && (registered' <==> op != Remove || (registered && events != {}))
  }

  lemma FollowsOne(ops: seq<(Channel, Op)>, d: Channel, op: Op, c: Channel, events0: set<Interest>, registered0: bool,
                   events: set<Interest>, registered: bool, events': set<Interest>, registered': bool)
    requires Follows(ops, c, events0, registered0, events, registered)
    requires if d == c then Applied(op, events, registered, events', registered')
             else events' == events && registered' == registered
    ensures Follows(ops + [(d, op)], c, events0, registered0, events', registered')
  {
    forall bit: Interest ensures bit in events' <==> SetAfter(ops + [(d, op)], c, bit, bit in events0) {
      SetAfterOne(ops, d, op, c, bit, bit in events0);
    }
    RegisteredAfterOne(ops, d, op, c, registered0, events' == {});
    if d == c && op == Remove {
      assert events' == events;
    }
  }

  class EpollPoller {
    var channels: map<int, Channel>
    var kernel: map<int, Watch>
    ghost var known: set<Channel>   // every channel of the loop, registered or not

    /** The state of one channel, its index and the kernel's interest set say the same. */
    ghost predicate Agrees(c: Channel)
      reads this, c
    {
      match c.index
      case New => c.fd !in channels && c.fd !in kernel && c.events == {}
      case Added => c.fd in channels && channels[c.fd] == c && c.fd in kernel && kernel[c.fd] == Watch(c.events, c)
      case Deleted => c.fd in channels && channels[c.fd] == c && c.fd !in kernel && c.events == {}
    }

    ghost predicate Valid()
      reads this, known
    {
      && (forall c <- known :: Agrees(c))
      && (forall c, d :: c in known && d in known && c.fd == d.fd ==> c == d)
      && (forall fd <- channels :: channels[fd] in known && channels[fd].fd == fd)
      && kernel.Keys <= channels.Keys
    }

    constructor ()
      ensures Valid() && known == {} && kernel == map[]
    {
      channels, kernel, known := map[], map[], {};
    }

    method NewChannel(fd: int) returns (c: Channel)
      requires Valid() && forall d <- known :: d.fd != fd
      modifies this`known
      ensures Valid() && fresh(c) && known == old(known) + {c} && c.fd == fd && c.events == {} && c.index == New
    {
      c := new Channel(fd);
      assert fd !in channels;
      known := known + {c};
    }

    /** `epoll_ctl` as the kernel accepts it: no descriptor is added twice, and only a present one is changed
        or deleted. */
    method EpollCtl(op: Ctl, fd: int, mask: set<Interest>, channel: Channel)
      requires op == CtlAdd <==> fd !in kernel
      modifies this`kernel
      ensures kernel == if op == CtlDel then old(kernel) - {fd} else old(kernel)[fd := Watch(mask, channel)]
    {
      if op == CtlDel {
        kernel := kernel - {fd};
      } else {
        kernel := kernel[fd := Watch(mask, channel)];
      }
    }

    /** `updateChannel`, on a channel whose events alone may have changed. */
    method UpdateChannel(c: Channel)
      requires c in known
      requires forall d <- known :: d != c ==> Agrees(d)
      requires forall d, e :: d in known && e in known && d.fd == e.fd ==> d == e
      requires forall fd <- channels :: channels[fd] in known && channels[fd].fd == fd
      requires kernel.Keys <= channels.Keys
      requires c.index == New ==> c.fd !in channels && c.fd !in kernel
      requires c.index == Deleted ==> c.fd in channels && channels[c.fd] == c && c.fd !in kernel
      requires c.index == Added ==> c.fd in channels && channels[c.fd] == c && c.fd in kernel
      modifies this`channels, this`kernel, c`index
      ensures Valid()
      ensures c.index == if old(c.index) == Added && c.events == {} then Deleted else Added
      ensures forall fd :: fd != c.fd ==>
                (fd in kernel <==> fd in old(kernel)) && (fd in kernel ==> kernel[fd] == old(kernel)[fd])
    {
      if c.index == New || c.index == Deleted {
        if c.index == New {
          channels := channels[c.fd := c];
        }
        c.index := Added;
        EpollCtl(CtlAdd, c.fd, c.events, c);
      } else if c.events == {} {
        c.index := Deleted;
        EpollCtl(CtlDel, c.fd, c.events, c);
      } else {
        EpollCtl(CtlMod, c.fd, c.events, c);
      }
    }

    /** `enableReading` and its like: change the mask, then update. Disabling a channel that is not
        in the kernel's set puts it there, with an empty mask. */
    method Change(c: Channel, op: Op)
      requires Valid() && c in known && op != Remove
      modifies this`channels, this`kernel, c`events, c`index
      ensures Valid()
      ensures Read in c.events <==>
                op == EnableReading || (Read in old(c.events) && op != DisableReading && op != DisableAll)
      ensures Write in c.events <==>
                op == EnableWriting || (Write in old(c.events) && op != DisableWriting && op != DisableAll)
      ensures c.index == if old(c.index) == Added && c.events == {} then Deleted else Added
      ensures c.fd in kernel <==> c.events != {} || old(c.fd !in kernel)
      ensures c.fd in kernel ==> kernel[c.fd] == Watch(c.events, c)
      ensures forall fd :: fd != c.fd ==>
                (fd in kernel <==> fd in old(kernel)) && (fd in kernel ==> kernel[fd] == old(kernel)[fd])
    {
      assert Agrees(c);
      c.events := Masked(op, c.events);
      UpdateChannel(c);
      assert Agrees(c);
    }

    /** `removeChannel`, on a registered channel without events, as its assertions demand. */
    method RemoveChannel(c: Channel)
      requires Valid() && c in known && c.fd in channels && c.events == {}
      modifies this`channels, this`kernel, c`index
      ensures Valid() && c.index == New && channels == old(channels) - {c.fd} && kernel == old(kernel) - {c.fd}
    {
      assert Agrees(c);
      channels := channels - {c.fd};
      if c.index == Added {
        EpollCtl(CtlDel, c.fd, c.events, c);
      }
      c.index := New;
    }

    /** `fillActiveChannels`: the kernel reports some descriptors of its set, and each pointer it hands back
        is the channel registered for that descriptor. */
    method FillActiveChannels(ready: seq<(int, set<Flag>)>) returns (active: seq<Channel>)
      requires Valid() && forall e <- ready :: e.0 in kernel
      requires forall i, j :: 0 <= i < j < |ready| ==> ready[i].0 != ready[j].0
      modifies known`revents
      ensures Valid() && |active| == |ready|
      ensures forall i :: 0 <= i < |ready| ==>
                active[i] in known && active[i].index == Added && channels[ready[i].0] == active[i]
      ensures forall i :: 0 <= i < |ready| ==> active[i].fd == ready[i].0 && active[i].revents == ready[i].1
    {
      active := [];
      for i := 0 to |ready|
        invariant Valid() && |active| == i
        invariant forall j :: 0 <= j < i ==>
                    active[j] in known && active[j].index == Added
                    && ready[j].0 in channels && channels[ready[j].0] == active[j]
        invariant forall j :: 0 <= j < i ==> active[j].fd == ready[j].0 && active[j].revents == ready[j].1
      {
        var fd := ready[i].0;
        assert ready[i] in ready && fd in kernel.Keys && fd in channels;
        assert channels[fd] in known && Agrees(channels[fd]) && channels[fd].fd == fd;
        var channel := kernel[fd].channel;
        channel.revents := ready[i].1;
        active := active + [channel];
      }
    }

    /** One operation; a removal that the assertions of `removeChannel` would stop is left out. */
    method Apply(c: Channel, op: Op)
      requires Valid() && c in known
      modifies this`channels, this`kernel, c`events, c`index
      ensures Valid()
      ensures Applied(op, old(c.events), old(c.index) != New, c.events, c.index != New)
    {
      assert Agrees(c);
      if op != Remove {
        Change(c, op);
      } else if c.fd in channels && c.events == {} {
        RemoveChannel(c);
      }
      forall bit: Interest
        ensures bit in c.events <==> Sets(op, bit) || (bit in old(c.events) && !Clears(op, bit))
      {
        match bit case Read => case Write =>
      }
    }

    /** Any sequence of operations, on any channels, keeps every channel in agreement with the kernel. */
    method Drive(ops: seq<(Channel, Op)>)
      requires Valid() && forall o <- ops :: o.0 in known
      modifies this`channels, this`kernel, known`events, known`index
      ensures Valid()
      ensures forall c <- known, bit: Interest :: bit in c.events <==> SetAfter(ops, c, bit, bit in old(c.events))
      ensures forall c <- known :: c.index != New <==> RegisteredAfter(ops, c, old(c.index) != New, c.events == {})
      ensures forall c <- known :: c.index == Added <==> c.fd in kernel
      ensures forall c <- known :: c.fd in kernel ==> kernel[c.fd] == Watch(c.events, c)
      ensures forall c <- known :: c.index == Deleted ==> c.events == {}
    {
      for i := 0 to |ops|
        invariant Valid()
        invariant forall c <- known ::
                    Follows(ops[..i], c, old(c.events), old(c.index) != New, c.events, c.index != New)
      {
        label Before:
        var (c, op) := ops[i];
        assert ops[i].0 in known;
        Apply(c, op);
        assert ops[..i + 1] == ops[..i] + [(c, op)];
        forall d <- known
          ensures Follows(ops[..i + 1], d, old(d.events), old(d.index) != New, d.events, d.index != New)
        {
          FollowsOne(ops[..i], c, op, d, old(d.events), old(d.index) != New,
                     old@Before(d.events), old@Before(d.index) != New, d.events, d.index != New);
        }
      }
      assert ops[..|ops|] == ops;
      assert forall c <- known :: Agrees(c);
    }
  }
}
