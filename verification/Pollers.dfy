/** The two pollers: poll(2) over an array kept dense by swap and pop, and epoll with a set in the kernel. */
module Pollers {

  const NONE_EVENT: nat := 0

  class Channel {
    const fd: nat
    var events: nat
    var index: int  // the poller's own
    var revents: int

    constructor (fd: nat)
      ensures this.fd == fd && events == NONE_EVENT && index == -1
    {
      this.fd := fd;
      events, index, revents := NONE_EVENT, -1, 0;
    }
  }

  // ----- poll -----

  datatype PollFd = PollFd(fd: int, events: nat)

  /** The file descriptor an entry stands for; -fd-1 marks one to be ignored. */
  function FdOf(p: PollFd): int { if p.fd < 0 then -p.fd - 1 else p.fd }

  class PollPoller {
    var pollfds: seq<PollFd>
    var channels: map<int, Channel>

    /** Entries and channels correspond one to one through the index of each channel; an entry has the events of its
        channel. */
    ghost predicate Valid()
      reads this, channels.Values
    {
      && |pollfds| == |channels|
      && (forall fd :: fd in channels ==> Registered(fd))
      && (forall i :: 0 <= i < |pollfds| ==> FdOf(pollfds[i]) in channels && channels[FdOf(pollfds[i])].index == i)
    }

    ghost predicate Registered(fd: int)
      requires fd in channels
      reads this, channels.Values
    {
      var ch := channels[fd];
      && ch.fd == fd && 0 <= ch.index < |pollfds|
      && FdOf(pollfds[ch.index]) == fd && pollfds[ch.index].events == ch.events
    }

    /** Does poll() look at this file descriptor? */
    ghost predicate Watched(fd: int)
      requires Valid()
      reads this, channels.Values
    {
      fd in channels && pollfds[channels[fd].index].fd == fd
    }

    /** A channel without interest is ignored: what removeChannel asserts. */
    ghost predicate Tidy()
      requires Valid()
      reads this, channels.Values
    {
      forall fd :: fd in channels && channels[fd].events == NONE_EVENT ==> !Watched(fd)
    }

    constructor ()
      ensures Valid() && channels == map[] && Tidy()
    {
      pollfds, channels := [], map[];
    }

    /** Channel::update after a change of interest, then updateChannel. */
    method UpdateChannel(channel: Channel, events: nat)
      requires Valid()
      requires if channel.index < 0 then channel.fd !in channels else channel.fd in channels && channels[channel.fd] == channel
      modifies this, channel
      ensures Valid() && channels == old(channels)[channel.fd := channel] && channel.events == events
      ensures forall fd :: fd in old(channels) && fd != channel.fd ==> (Watched(fd) <==> old(Watched(fd)))
      ensures Watched(channel.fd) <==> old(channel.index) < 0 || (events != NONE_EVENT && old(Watched(channel.fd)))
      ensures old(Tidy()) ==> (Tidy() <==> old(channel.index) >= 0 || events != NONE_EVENT)
    {
      channel.events := events;
      if channel.index < 0 {
        pollfds := pollfds + [PollFd(channel.fd, events)];
        channel.index := |pollfds| - 1;
        channels := channels[channel.fd := channel];
      } else {
        var i := channel.index;
        pollfds := pollfds[i := pollfds[i].(events := events)];
        if events == NONE_EVENT {
          var fd: int := channel.fd;
          pollfds := pollfds[i := pollfds[i].(fd := -fd - 1)];
        }
        assert channels == channels[channel.fd := channel];
      }
    }

    /** removeChannel: the last entry takes the place of the removed one. */
    method RemoveChannel(channel: Channel)
      requires Valid() && channel.fd in channels && channels[channel.fd] == channel && channel.events == NONE_EVENT
      requires !Watched(channel.fd)
      modifies this, channels.Values
      ensures Valid() && channels == old(channels) - {channel.fd}
      ensures forall fd :: fd in channels ==> (Watched(fd) <==> old(Watched(fd))) && channels[fd].events == old(channels[fd].events)
      ensures channel.index == old(channel.index)
    {
      var i := channel.index;
      assert Registered(channel.fd);
      var last := |pollfds| - 1;
      channels := channels - {channel.fd};
      if i == last {
        pollfds := pollfds[..last];
      } else {
        var channelAtEnd := pollfds[last].fd;
        pollfds := pollfds[i := pollfds[last]][last := pollfds[i]];
        if channelAtEnd < 0 {
          channelAtEnd := -channelAtEnd - 1;
        }
        assert channelAtEnd in old(channels) && channelAtEnd != channel.fd;
        channels[channelAtEnd].index := i;
        pollfds := pollfds[..last];
      }
    }

    /** fillActiveChannels: revents are what poll() wrote, numEvents how many of them are not zero. */
    method FillActiveChannels(numEvents: nat, revents: seq<int>) returns (active: seq<Channel>)
      requires Valid() && |revents| == |pollfds| && numEvents == Ready(revents)
      modifies channels.Values`revents
      ensures active == ActiveOf(pollfds, channels, revents)
      ensures forall i :: 0 <= i < |revents| && revents[i] > 0 ==> channels[FdOf(pollfds[i])].revents == revents[i]
      ensures Valid()
    {
      hide ActiveOf, Ready;
      active := [];
      var left := numEvents;
      var i := 0;
      StartOfList(pollfds, channels, revents);
      while i < |pollfds| && left > 0
        invariant 0 <= i <= |pollfds| && left == numEvents - Ready(revents[..i]) && Valid()
        invariant active == ActiveOf(pollfds[..i], channels, revents[..i])
        invariant forall j :: 0 <= j < i && revents[j] > 0 ==> channels[FdOf(pollfds[j])].revents == revents[j]
      {
        OneMoreEntry(pollfds, channels, revents, i);
        if revents[i] > 0 {
          left := left - 1;
          var channel := channels[FdOf(pollfds[i])];
          channel.revents := revents[i];
          active := active + [channel];
        }
        i := i + 1;
      }
      RestIdle(pollfds, channels, revents, i);
    }
  }

  function Ready(revents: seq<int>): nat {
    if revents == [] then 0 else Ready(revents[..|revents| - 1]) + (if revents[|revents| - 1] > 0 then 1 else 0)
  }

  /** The channels of the entries that are ready, in the order of the entries. */
  function ActiveOf(pollfds: seq<PollFd>, channels: map<int, Channel>, revents: seq<int>): seq<Channel>
    requires |revents| == |pollfds| && forall i :: 0 <= i < |pollfds| ==> FdOf(pollfds[i]) in channels
  {
    if pollfds == [] then []
    else
      var n := |pollfds| - 1;
      ActiveOf(pollfds[..n], channels, revents[..n]) + (if revents[n] > 0 then [channels[FdOf(pollfds[n])]] else [])
  }

  lemma StartOfList(pollfds: seq<PollFd>, channels: map<int, Channel>, revents: seq<int>)
    requires |revents| == |pollfds|
    ensures Ready(revents[..0]) == 0 && ActiveOf(pollfds[..0], channels, revents[..0]) == []
  {
  }

  lemma OneMoreEntry(pollfds: seq<PollFd>, channels: map<int, Channel>, revents: seq<int>, i: nat)
    requires |revents| == |pollfds| && i < |pollfds| && forall k :: 0 <= k < |pollfds| ==> FdOf(pollfds[k]) in channels
    ensures Ready(revents[..i + 1]) == Ready(revents[..i]) + (if revents[i] > 0 then 1 else 0)
    ensures ActiveOf(pollfds[..i + 1], channels, revents[..i + 1]) ==
            ActiveOf(pollfds[..i], channels, revents[..i]) + (if revents[i] > 0 then [channels[FdOf(pollfds[i])]] else [])
  {
    assert revents[..i + 1][..i] == revents[..i] && pollfds[..i + 1][..i] == pollfds[..i];
  }

  lemma {:induction false} ReadyGrows(revents: seq<int>, i: nat)
    requires i <= |revents|
    ensures Ready(revents[..i]) <= Ready(revents)
    decreases |revents|
  {
    if i < |revents| {
      ReadyGrows(revents[..|revents| - 1], i);
      assert revents[..|revents| - 1][..i] == revents[..i];
    } else {
      assert revents[..i] == revents;
    }
  }

  /** Once all that are ready have been seen, the rest is idle. */
  lemma {:induction false} RestIdle(pollfds: seq<PollFd>, channels: map<int, Channel>, revents: seq<int>, i: nat)
    requires |revents| == |pollfds| && i <= |pollfds| && forall k :: 0 <= k < |pollfds| ==> FdOf(pollfds[k]) in channels
    ensures i == |pollfds| || Ready(revents[..i]) == Ready(revents) ==>
              ActiveOf(pollfds, channels, revents) == ActiveOf(pollfds[..i], channels, revents[..i]) &&
              forall j :: i <= j < |revents| ==> revents[j] <= 0
    decreases |pollfds|
  {
    var n := |pollfds| - 1;
    if i == |pollfds| {
      assert pollfds[..i] == pollfds && revents[..i] == revents;
    } else if Ready(revents[..i]) == Ready(revents) {
      assert pollfds[..n][..i] == pollfds[..i] && revents[..n][..i] == revents[..i];
      ReadyGrows(revents[..n], i);
      RestIdle(pollfds[..n], channels, revents[..n], i);
      assert forall j :: i <= j < n ==> revents[j] == revents[..n][j];
    }
  }

  /** A channel that comes back: whatever it asks for after having asked for nothing, it stays ignored. */
  method ReenabledIsIgnored(poller: PollPoller, channel: Channel, interests: seq<nat>)
    requires poller.Valid() && channel.fd in poller.channels && poller.channels[channel.fd] == channel
    modifies poller, channel
    ensures poller.Valid() && channel.fd in poller.channels
    ensures channel.events == (if interests == [] then NONE_EVENT else interests[|interests| - 1]) && !poller.Watched(channel.fd)
  {
    assert poller.Registered(channel.fd);
    poller.UpdateChannel(channel, NONE_EVENT);
    for i := 0 to |interests|
      invariant poller.Valid() && channel.fd in poller.channels && poller.channels[channel.fd] == channel && !poller.Watched(channel.fd)
      invariant channel.events == if i == 0 then NONE_EVENT else interests[i - 1]
    {
      assert poller.Registered(channel.fd);
      poller.UpdateChannel(channel, interests[i]);
    }
  }

  // ----- epoll -----

  const NEW: int := -1
  const ADDED: int := 1
  const DELETED: int := 2

  datatype Operation = CtlAdd | CtlMod | CtlDel

  datatype Interest = Interest(events: nat, channel: Channel)

  class EPollPoller {
    var channels: map<int, Channel>
    var kernel: map<int, Interest>  // the set inside the kernel
    var failures: nat               // epoll_ctl calls that were refused

    /** A file descriptor is in the kernel's set exactly when its channel is marked as added, with the channel's latest
        events; and no epoll_ctl was ever refused. */
    ghost predicate Valid()
      reads this, channels.Values
    {
      && failures == 0
      && kernel.Keys <= channels.Keys
      && (forall fd :: fd in channels ==>
            var ch := channels[fd];
            && ch.fd == fd && (ch.index == ADDED || ch.index == DELETED)
            && (ch.index == ADDED <==> fd in kernel)
            && (fd in kernel ==> kernel[fd] == Interest(ch.events, ch)))
    }

    constructor ()
      ensures Valid() && channels == map[] && kernel == map[]
    {
      channels, kernel, failures := map[], map[], 0;
    }

    /** update: epoll_ctl, refused when the file descriptor is there (or is not) against what the operation wants. */
    method Update(operation: Operation, channel: Channel)
      modifies this`kernel, this`failures
      ensures var legal := (operation == CtlAdd <==> channel.fd !in old(kernel));
              if !legal then kernel == old(kernel) && failures == old(failures) + 1
              else failures == old(failures) &&
                   kernel == (if operation == CtlDel then old(kernel) - {channel.fd}
                              else old(kernel)[channel.fd := Interest(channel.events, channel)])
    {
      var there := channel.fd in kernel;
      match operation {
        case CtlAdd => if there { failures := failures + 1; } else { kernel := kernel[channel.fd := Interest(channel.events, channel)]; }
        case CtlMod => if there { kernel := kernel[channel.fd := Interest(channel.events, channel)]; } else { failures := failures + 1; }
        case CtlDel => if there { kernel := kernel - {channel.fd}; } else { failures := failures + 1; }
      }
    }

    /** Channel::update after a change of interest, then updateChannel. */
    method UpdateChannel(channel: Channel, events: nat)
      requires Valid()
      requires if channel.index == NEW then channel.fd !in channels
               else channel.fd in channels && channels[channel.fd] == channel
      modifies this, channel
      ensures Valid() && channels == old(channels)[channel.fd := channel] && channel.events == events
      ensures kernel == if old(channel.index) == ADDED && events == NONE_EVENT then old(kernel) - {channel.fd}
                        else old(kernel)[channel.fd := Interest(events, channel)]
    {
      channel.events := events;
      if channel.index == NEW || channel.index == DELETED {
        if channel.index == NEW {
          channels := channels[channel.fd := channel];
        }
        assert channels == old(channels)[channel.fd := channel];
        channel.index := ADDED;
        Update(CtlAdd, channel);
      } else {
        assert channels == old(channels)[channel.fd := channel];
        if events == NONE_EVENT {
          Update(CtlDel, channel);
          channel.index := DELETED;
        } else {
          Update(CtlMod, channel);
        }
      }
    }

    method RemoveChannel(channel: Channel)
      requires Valid() && channel.fd in channels && channels[channel.fd] == channel && channel.events == NONE_EVENT
      modifies this, channel
      ensures Valid() && channels == old(channels) - {channel.fd} && kernel == old(kernel) - {channel.fd}
      ensures channel.index == NEW
    {
      var index := channel.index;
      channels := channels - {channel.fd};
      if index == ADDED {
        Update(CtlDel, channel);
      }
      assert kernel == old(kernel) - {channel.fd};
      channel.index := NEW;
    }
  }
}
