/** Routing of provider frames to the relay that owns the job (`coordinator/internal/jobs/jobs.go`).
    A Go channel is an index into the list of all channels ever made. */
module Jobs {
  import opened Common
  import opened Frames

  const BUFFER: nat := 64

  /** A buffered event together with the connection it arrived on. */
  datatype Routed = Routed(from: string, frame: Frame)

  /** `owner` is the provider the channel was registered for. */
  datatype Channel = Channel(owner: string, buffer: seq<Routed>, closed: bool)

  datatype Assignment = Assignment(providerId: string, ch: nat)

  datatype Table = Table(m: map<string, Assignment>, channels: seq<Channel>)
  {
    /** Every registered job has an open channel of its own, bound to its provider. */
    ghost predicate Valid() {
      && (forall id | id in m :: m[id].ch < |channels| && !channels[m[id].ch].closed
                                 && channels[m[id].ch].owner == m[id].providerId)
      && (forall id, id' | id in m && id' in m && id != id' :: m[id].ch != m[id'].ch)
      && (forall c | c in channels :: |c.buffer| <= BUFFER)
      && (forall c, i | c in channels && 0 <= i < |c.buffer| :: c.buffer[i].from == c.owner)
    }

    function Register(jobId: string, providerId: string): Table {
      Table(m[jobId := Assignment(providerId, |channels|)], channels + [Channel(providerId, [], false)])
    }

    /** Does `Deliver` accept a frame for `jobId` arriving from `providerId`? */
    predicate Accepts(jobId: string, providerId: string) {
      && jobId in m && m[jobId].providerId == providerId
      && m[jobId].ch < |channels| && |channels[m[jobId].ch].buffer| < BUFFER
    }

    function Deliver(jobId: string, providerId: string, frame: Frame): Table {
      if Accepts(jobId, providerId) then
        var c := channels[m[jobId].ch];
        this.(channels := channels[m[jobId].ch := c.(buffer := c.buffer + [Routed(providerId, frame)])])
      else this
    }

    /** Sending on a closed channel panics. */
    predicate DeliverPanics(jobId: string, providerId: string) {
      && jobId in m && m[jobId].providerId == providerId
      && m[jobId].ch < |channels| && channels[m[jobId].ch].closed
    }

    /** The first half of `Close`, under the lock. */
    function Remove(jobId: string): Table {
      this.(m := m - {jobId})
    }

    /** The second half of `Close`, outside the lock. */
    function CloseChannel(ch: nat): Table
      requires ch < |channels|
    {
      this.(channels := channels[ch := channels[ch].(closed := true)])
    }

    function Pop(ch: nat): Table
      requires ch < |channels| && channels[ch].buffer != []
    {
      this.(channels := channels[ch := channels[ch].(buffer := channels[ch].buffer[1..])])
    }
  }

  // ---------------------------------------------------------------- jobs do not touch each other

  /** What `other` is assigned, and what waits in its channel. */
  function StateOf(t: Table, other: string): Option<(Assignment, Channel)> {
    if other in t.m && t.m[other].ch < |t.channels| then Some((t.m[other], t.channels[t.m[other].ch])) else None
  }

  /** Whatever is done to one job leaves every other job's assignment and channel as they were. */
  lemma OtherJobsAreUntouched(t: Table, jobId: string, providerId: string, frame: Frame, other: string)
    requires t.Valid() && other != jobId
    ensures StateOf(t.Register(jobId, providerId), other) == StateOf(t, other)
    ensures StateOf(t.Deliver(jobId, providerId, frame), other) == StateOf(t, other)
    ensures StateOf(t.Remove(jobId), other) == StateOf(t, other)
    ensures jobId in t.m ==> StateOf(t.Remove(jobId).CloseChannel(t.m[jobId].ch), other) == StateOf(t, other)
  {
  }

  function DeliverAll(t: Table, jobId: string, frames: seq<Frame>): Table
    requires jobId in t.m
  {
    if frames == [] then t
    else
      var before := DeliverAll(t, jobId, frames[..|frames| - 1]);
      before.Deliver(jobId, t.m[jobId].providerId, frames[|frames| - 1])
  }

  /** A job is registered with nothing waiting; up to 64 frames of its provider then wait in the order
      of their arrival, and the next is turned away. */
  lemma {:induction false} FramesQueueUp(t: Table, jobId: string, providerId: string, frames: seq<Frame>)
    requires t.Valid() && |frames| <= 64
    ensures var t' := DeliverAll(t.Register(jobId, providerId), jobId, frames);
      && StateOf(t', jobId).Some? && StateOf(t', jobId).value.0.providerId == providerId
      && StateOf(t', jobId).value.1
         == Channel(providerId, seq(|frames|, i requires 0 <= i < |frames| => Routed(providerId, frames[i])), false)
      && (t'.Accepts(jobId, providerId) <==> |frames| < 64)
  {
    if frames == [] {
    } else {
      FramesQueueUp(t, jobId, providerId, frames[..|frames| - 1]);
    }
  }

  /** A frame from any other provider is turned away, and changes nothing. */
  lemma StrangersAreTurnedAway(t: Table, jobId: string, from: string, frame: Frame)
    requires jobId !in t.m || t.m[jobId].providerId != from
    ensures !t.Accepts(jobId, from) && t.Deliver(jobId, from, frame) == t
  {
  }

  class Manager {
    var m: map<string, Assignment>
    var channels: seq<Channel>

    function State(): Table
      reads this
    {
      Table(m, channels)
    }

    constructor ()
      ensures State() == Table(map[], []) && State().Valid()
    {
      m, channels := map[], [];
    }

    method Register(jobId: string, providerId: string) returns (ch: nat)
      requires State().Valid()
      modifies this
      ensures State() == old(State()).Register(jobId, providerId) && State().Valid()
      ensures ch == |old(channels)|
    {
      ch := |channels|;
      channels := channels + [Channel(providerId, [], false)];
      m := m[jobId := Assignment(providerId, ch)];
    }

    method Deliver(jobId: string, providerId: string, frame: Frame) returns (accepted: bool)
      requires State().Valid()
      modifies this
      ensures State() == old(State()).Deliver(jobId, providerId, frame) && State().Valid()
      ensures accepted <==> old(State()).Accepts(jobId, providerId)
      ensures !old(State()).DeliverPanics(jobId, providerId)
    {
      if jobId !in m || m[jobId].providerId != providerId {
        return false;
      }
      var ch := m[jobId].ch;
      var c := channels[ch];
      if |c.buffer| < BUFFER {
        channels := channels[ch := c.(buffer := c.buffer + [Routed(providerId, frame)])];
        return true;
      }
      return false;
    }

    method CloseUnderLock(jobId: string) returns (ch: Option<nat>)
      requires State().Valid()
      modifies this
      ensures State() == old(State()).Remove(jobId) && State().Valid()
      ensures ch == if jobId in old(m) then Some(old(m)[jobId].ch) else None
      ensures ch.Some? ==> ch.value < |channels| && !channels[ch.value].closed
      ensures ch.Some? ==> forall id | id in m :: m[id].ch != ch.value
    {
      ch := None;
      if jobId in m {
        ch := Some(m[jobId].ch);
        m := m - {jobId};
      } else {
        assert m - {jobId} == m;
      }
    }

    method CloseOutsideLock(ch: nat)
      requires State().Valid() && ch < |channels| && !channels[ch].closed
      requires forall id | id in m :: m[id].ch != ch
      modifies this
      ensures State() == old(State()).CloseChannel(ch) && State().Valid()
    {
      channels := channels[ch := channels[ch].(closed := true)];
    }

    method Close(jobId: string)
      requires State().Valid()
      modifies this
      ensures State().Valid() && m == old(m) - {jobId}
      ensures channels
           == if jobId in old(m) then old(State()).CloseChannel(old(m)[jobId].ch).channels else old(channels)
    {
      var ch := CloseUnderLock(jobId);
      if ch.Some? {
        CloseOutsideLock(ch.value);
      }
    }
  }
}
