/** The encrypted job stream as a whole: honest providers numbering tokens, a network that
    drops, duplicates, reorders and injects frames in both directions, the job table, and the
    relays. */
module Stream {
  import opened Frames
  import opened Jobs
  import opened Relay

  /** One `ExecuteOn` call. Its key is its own position: every call draws a fresh one.
      `runs` holds what the provider's model has generated, one text for every time the provider
      was handed the job request; `released` is set once the call has started closing its channel. */
  datatype Session = Session(job: Job, provider: string, honest: bool, ch: nat,
                             runs: seq<seq<string>>, progress: Progress, released: bool)

  /** `closing` holds the channels taken out of the table but not closed yet. */
  datatype System = System(table: Table, sessions: seq<Session>, closing: multiset<nat>, panicked: bool)

  datatype Turning = Gone | Late | Receive(sinkOk: bool)

  datatype Step =
    | Start(jobId: string, provider: string, honest: bool, maxTokens: int, maxPromptUnits: int)
    | Handle(s: nat)                          // the job request reaches the provider, perhaps again
    | Produce(s: nat, run: nat, token: string)
    | Arrive(jobId: string, from: string, frame: Frame)
    | Turn(s: nat, turning: Turning)
    | BeginClose(s: nat)
    | EndClose(ch: nat)

  const INIT: System := System(Table(map[], []), [], multiset{}, false)

  /** A box under an honest provider's key was sealed by that provider for one of its tokens.
      Everything else about a frame is the network's to choose. */
  ghost predicate Authentic(sessions: seq<Session>, frame: Frame) {
    frame.ChunkFrame? && frame.box.Sealed? ==>
      && frame.box.key < |sessions|
      && (sessions[frame.box.key].honest ==> SealedByProvider(sessions[frame.box.key], frame.box.plain))
  }

  ghost predicate SealedByProvider(s: Session, plain: Plain) {
    plain.ChunkPlain? && plain.jobId == s.job.jobId && Produced(s.runs, plain.seqNo, plain.delta)
  }

  /** Some run of the job carries `token` under number `n`. */
  ghost predicate Produced(runs: seq<seq<string>>, n: nat, token: string) {
    exists g, k :: 0 <= g < |runs| && 0 <= k < |runs[g]| && SeqNo(k) == n && runs[g][k] == token
  }

  // ---------------------------------------------------------------- steps

  function DoStart(sys: System, jobId: string, provider: string, honest: bool,
                   maxTokens: int, maxPromptUnits: int): System {
    var job := Job(jobId, |sys.sessions|, maxTokens, maxPromptUnits);
    var session := Session(job, provider, honest, |sys.table.channels|, [], START, false);
    sys.(table := sys.table.Register(jobId, provider), sessions := sys.sessions + [session])
  }

  /** Every delivery of the request starts a run of its own, numbered from zero. */
  function DoHandle(sys: System, s: nat): System {
    if s < |sys.sessions| then
      var session := sys.sessions[s];
      sys.(sessions := sys.sessions[s := session.(runs := session.runs + [[]])])
    else sys
  }

  function DoProduce(sys: System, s: nat, run: nat, token: string): System {
    if s < |sys.sessions| && run < |sys.sessions[s].runs| then
      var session := sys.sessions[s];
      sys.(sessions := sys.sessions[s := session.(runs := session.runs[run := session.runs[run] + [token]])])
    else sys
  }

  ghost function DoArrive(sys: System, jobId: string, from: string, frame: Frame): System {
    if !Authentic(sys.sessions, frame) then sys
    else if sys.table.DeliverPanics(jobId, from) then sys.(panicked := true)
    else sys.(table := sys.table.Deliver(jobId, from, frame))
  }

  function Advance(sys: System, s: nat, input: Input): System
    requires s < |sys.sessions|
  {
    var session := sys.sessions[s];
    sys.(sessions := sys.sessions[s := session.(progress := OnInput(session.job, session.progress, input))])
  }

  function DoTurn(sys: System, s: nat, turning: Turning): System {
    if s >= |sys.sessions| || !sys.sessions[s].progress.status.Running? then sys
    else if sys.sessions[s].ch >= |sys.table.channels| then sys
    else
      var ch := sys.sessions[s].ch;
      match turning
      case Gone => Advance(sys, s, ClientGone)
      case Late => Advance(sys, s, DeadlineHit)
      case Receive(sinkOk) =>
        var c := sys.table.channels[ch];
        if c.buffer != [] then
          Advance(sys, s, Arrived(c.buffer[0].frame, sinkOk)).(table := sys.table.Pop(ch))
        else if c.closed then Advance(sys, s, ChannelClosed)
        else sys
  }

  function DoBeginClose(sys: System, s: nat): System {
    if s >= |sys.sessions| || sys.sessions[s].progress.status.Running? || sys.sessions[s].released then sys
    else
      var session := sys.sessions[s];
      var jobId := session.job.jobId;
      var sys' := sys.(sessions := sys.sessions[s := session.(released := true)]);
      if jobId in sys.table.m then
        sys'.(table := sys.table.Remove(jobId), closing := sys.closing + multiset{sys.table.m[jobId].ch})
      else sys'
  }

  function DoEndClose(sys: System, ch: nat): System {
    if ch !in sys.closing || ch >= |sys.table.channels| then sys
    else if sys.table.channels[ch].closed then sys.(panicked := true)
    else sys.(table := sys.table.CloseChannel(ch), closing := sys.closing - multiset{ch})
  }

  /** A step that is not possible in `sys` changes nothing. */
  ghost function Next(sys: System, step: Step): System {
    match step
    case Start(jobId, provider, honest, maxTokens, maxPromptUnits) =>
      DoStart(sys, jobId, provider, honest, maxTokens, maxPromptUnits)
    case Handle(s) => DoHandle(sys, s)
    case Produce(s, run, token) => DoProduce(sys, s, run, token)
    case Arrive(jobId, from, frame) => DoArrive(sys, jobId, from, frame)
    case Turn(s, turning) => DoTurn(sys, s, turning)
    case BeginClose(s) => DoBeginClose(sys, s)
    case EndClose(ch) => DoEndClose(sys, ch)
  }

  ghost function Exec(sys: System, steps: seq<Step>): System {
    if steps == [] then sys else Next(Exec(sys, steps[..|steps| - 1]), steps[|steps| - 1])
  }

  // ---------------------------------------------------------------- what holds in every state

  function NonEmpty(tokens: seq<string>): seq<string> {
    if tokens == [] then []
    else
      var last := tokens[|tokens| - 1];
      NonEmpty(tokens[..|tokens| - 1]) + (if last == "" then [] else [last])
  }

  /** The relay has taken one token for every number so far, each from some run under that number.
      The last number a relay can take is the saturated one. */
  ghost predicate Explains(runs: seq<seq<string>>, p: Progress, taken: seq<string>) {
    && |taken| == p.expectedSeq && p.delivered == NonEmpty(taken)
    && forall n | 0 <= n < |taken| :: Produced(runs, n, taken[n])
  }

  ghost predicate Faithful(runs: seq<seq<string>>, p: Progress) {
    p.expectedSeq <= U32_MAX + 1 && exists taken :: Explains(runs, p, taken)
  }

  /** The tally the caller is billed for is the relay's own. */
  ghost predicate Tallied(job: Job, p: Progress) {
    && (job.maxTokens > 0 ==> p.expectedSeq <= job.maxTokens)
    && (p.status.Finished? ==>
          var u := p.status.usage;
          && u.completionTokens == p.expectedSeq
          && u.totalTokens == u.promptTokens + p.expectedSeq
          && 0 <= u.promptTokens <= job.maxPromptUnits)
  }

  ghost predicate GoodSession(sys: System, s: nat)
    requires s < |sys.sessions|
  {
    var session := sys.sessions[s];
    && session.job.key == s
    && session.ch < |sys.table.channels|
    && sys.table.channels[session.ch].owner == session.provider
    && Tallied(session.job, session.progress)
    && (session.honest ==> Faithful(session.runs, session.progress))
  }

  ghost predicate GoodClosing(sys: System) {
    forall ch | ch in sys.closing ::
      && sys.closing[ch] == 1 && ch < |sys.table.channels| && !sys.table.channels[ch].closed
      && forall id | id in sys.table.m :: sys.table.m[id].ch != ch
  }

  ghost predicate GoodFrames(sys: System) {
    forall c, i | 0 <= c < |sys.table.channels| && 0 <= i < |sys.table.channels[c].buffer| ::
      Authentic(sys.sessions, sys.table.channels[c].buffer[i].frame)
  }

  ghost predicate Inv(sys: System) {
    && !sys.panicked
    && sys.table.Valid()
    && GoodClosing(sys)
    && GoodFrames(sys)
    && (forall s: nat | s < |sys.sessions| :: GoodSession(sys, s))
  }

  // ---------------------------------------------------------------- every step keeps it

  /** Runs are only ever added and extended. */
  ghost predicate Grown(a: seq<seq<string>>, b: seq<seq<string>>) {
    |a| <= |b| && forall g | 0 <= g < |a| :: a[g] <= b[g]
  }

  lemma ProducedStays(a: seq<seq<string>>, b: seq<seq<string>>, n: nat, token: string)
    requires Produced(a, n, token) && Grown(a, b)
    ensures Produced(b, n, token)
  {
    var g, k :| 0 <= g < |a| && 0 <= k < |a[g]| && SeqNo(k) == n && a[g][k] == token;
    assert a[g] <= b[g];
    assert b[g][k] == token;
  }

  lemma FaithfulGrows(a: seq<seq<string>>, b: seq<seq<string>>, p: Progress)
    requires Faithful(a, p) && Grown(a, b)
    ensures Faithful(b, p)
  {
    var taken :| Explains(a, p, taken);
    forall n | 0 <= n < |taken| ensures Produced(b, n, taken[n]) {
      ProducedStays(a, b, n, taken[n]);
    }
    assert Explains(b, p, taken);
  }

  /** Sessions that stay who they are while their runs grow. */
  ghost predicate Continued(a: seq<Session>, b: seq<Session>) {
    && |a| <= |b|
    && forall s | 0 <= s < |a| ::
      a[s].job == b[s].job && a[s].honest == b[s].honest && Grown(a[s].runs, b[s].runs)
  }

  lemma AuthenticStays(a: seq<Session>, b: seq<Session>, frame: Frame)
    requires Authentic(a, frame) && Continued(a, b)
    ensures Authentic(b, frame)
  {
    if frame.ChunkFrame? && frame.box.Sealed? && a[frame.box.key].honest {
      var plain := frame.box.plain;
      assert Grown(a[frame.box.key].runs, b[frame.box.key].runs);
      ProducedStays(a[frame.box.key].runs, b[frame.box.key].runs, plain.seqNo, plain.delta);
    }
  }

  lemma FramesStay(sys: System, sys': System)
    requires GoodFrames(sys) && sys.table.channels == sys'.table.channels
    requires Continued(sys.sessions, sys'.sessions)
    ensures GoodFrames(sys')
  {
    forall c, i | 0 <= c < |sys'.table.channels| && 0 <= i < |sys'.table.channels[c].buffer|
      ensures Authentic(sys'.sessions, sys'.table.channels[c].buffer[i].frame)
    {
      AuthenticStays(sys.sessions, sys'.sessions, sys.table.channels[c].buffer[i].frame);
    }
  }

  lemma StartKeeps(sys: System, jobId: string, provider: string, honest: bool, maxTokens: int, maxPromptUnits: int)
    requires Inv(sys)
    ensures Inv(DoStart(sys, jobId, provider, honest, maxTokens, maxPromptUnits))
  {
    var sys' := DoStart(sys, jobId, provider, honest, maxTokens, maxPromptUnits);
    FramesStay(sys, sys'.(table := sys.table));
    assert Explains([], START, []);
    forall s: nat | s < |sys'.sessions| ensures GoodSession(sys', s) {
      if s < |sys.sessions| {
        assert GoodSession(sys, s);
      }
    }
  }

  /** Longer runs keep the system safe, whether a token was added or the request handled again. */
  lemma LongerRunsKeep(sys: System, s: nat, runs: seq<seq<string>>)
    requires Inv(sys) && s < |sys.sessions| && Grown(sys.sessions[s].runs, runs)
    ensures Inv(sys.(sessions := sys.sessions[s := sys.sessions[s].(runs := runs)]))
  {
    var sys' := sys.(sessions := sys.sessions[s := sys.sessions[s].(runs := runs)]);
    FramesStay(sys, sys');
    assert GoodSession(sys, s);
    if sys.sessions[s].honest {
      FaithfulGrows(sys.sessions[s].runs, runs, sys.sessions[s].progress);
    }
    forall t: nat | t < |sys'.sessions| ensures GoodSession(sys', t) {
      assert GoodSession(sys, t);
    }
  }

  lemma HandleKeeps(sys: System, s: nat)
    requires Inv(sys)
    ensures Inv(DoHandle(sys, s))
  {
    if s < |sys.sessions| {
      LongerRunsKeep(sys, s, sys.sessions[s].runs + [[]]);
    }
  }

  lemma ProduceKeeps(sys: System, s: nat, run: nat, token: string)
    requires Inv(sys)
    ensures Inv(DoProduce(sys, s, run, token))
  {
    if s < |sys.sessions| && run < |sys.sessions[s].runs| {
      var runs := sys.sessions[s].runs;
      LongerRunsKeep(sys, s, runs[run := runs[run] + [token]]);
    }
  }

  lemma DeliverKeepsTable(t: Table, jobId: string, from: string, frame: Frame)
    requires t.Valid()
    ensures !t.DeliverPanics(jobId, from) && t.Deliver(jobId, from, frame).Valid()
  {
    var t' := t.Deliver(jobId, from, frame);
    if t.Accepts(jobId, from) {
      var ch := t.m[jobId].ch;
      assert t.channels[ch] in t.channels;
      forall c | c in t'.channels
        ensures |c.buffer| <= BUFFER && forall i | 0 <= i < |c.buffer| :: c.buffer[i].from == c.owner
      {
        var k :| 0 <= k < |t'.channels| && t'.channels[k] == c;
        assert k != ch ==> c in t.channels;
      }
    }
  }

  lemma ArriveKeeps(sys: System, jobId: string, from: string, frame: Frame)
    requires Inv(sys)
    ensures Inv(DoArrive(sys, jobId, from, frame))
  {
    var sys' := DoArrive(sys, jobId, from, frame);
    DeliverKeepsTable(sys.table, jobId, from, frame);
    if Authentic(sys.sessions, frame) && sys.table.Accepts(jobId, from) {
      var ch := sys.table.m[jobId].ch;
      forall c, i | 0 <= c < |sys'.table.channels| && 0 <= i < |sys'.table.channels[c].buffer|
        ensures Authentic(sys'.sessions, sys'.table.channels[c].buffer[i].frame)
      {
        if c != ch || i < |sys.table.channels[c].buffer| {
          assert Authentic(sys.sessions, sys.table.channels[c].buffer[i].frame);
        }
      }
      forall s: nat | s < |sys'.sessions| ensures GoodSession(sys', s) {
        assert GoodSession(sys, s);
      }
    }
  }

  lemma InputKeepsTally(job: Job, p: Progress, input: Input)
    requires p.status.Running? && Tallied(job, p)
    ensures Tallied(job, OnInput(job, p, input))
  {
  }

  /** What taking one more frame means: it carried the expected number. */
  lemma TakenIsExpected(job: Job, p: Progress, input: Input)
    requires OnInput(job, p, input).expectedSeq != p.expectedSeq
    ensures input.Arrived? && input.frame.ChunkFrame? && input.frame.box.Sealed? && input.frame.box.key == job.key
    ensures var plain := input.frame.box.plain;
      && plain.ChunkPlain? && plain.seqNo == p.expectedSeq
      && OnInput(job, p, input).expectedSeq == p.expectedSeq + 1
      && OnInput(job, p, input).delivered == p.delivered + (if plain.delta == "" then [] else [plain.delta])
  {
  }

  lemma OneMoreDelivered(before: seq<string>, token: string)
    ensures NonEmpty(before + [token]) == NonEmpty(before) + (if token == "" then [] else [token])
  {
    assert (before + [token])[..|before|] == before;
  }

  lemma NumbersSaturate(runs: seq<seq<string>>, n: nat, token: string)
    requires Produced(runs, n, token)
    ensures n <= U32_MAX
  {
  }

  /** The heart of the protocol: an authentic chunk that the relay accepts carries the next
      number, so it is the token of that number in some run. */
  lemma InputKeepsFaithful(session: Session, input: Input)
    requires session.honest && Faithful(session.runs, session.progress)
    requires (input.Arrived? && input.frame.ChunkFrame? && input.frame.box.Sealed?
              && input.frame.box.key == session.job.key) ==> SealedByProvider(session, input.frame.box.plain)
    ensures Faithful(session.runs, OnInput(session.job, session.progress, input))
  {
    var job, p := session.job, session.progress;
    var q := OnInput(job, p, input);
    var taken :| Explains(session.runs, p, taken);
    if q.expectedSeq == p.expectedSeq {
      assert q.delivered == p.delivered;
      assert Explains(session.runs, q, taken);
    } else {
      TakenIsExpected(job, p, input);
      var token := input.frame.box.plain.delta;
      NumbersSaturate(session.runs, p.expectedSeq, token);
      OneMoreDelivered(taken, token);
      assert Explains(session.runs, q, taken + [token]);
    }
  }

  lemma AdvanceKeeps(sys: System, s: nat, input: Input)
    requires Inv(sys) && s < |sys.sessions| && sys.sessions[s].progress.status.Running?
    requires input.Arrived? ==> Authentic(sys.sessions, input.frame)
    ensures Inv(Advance(sys, s, input))
  {
    var sys' := Advance(sys, s, input);
    var session := sys.sessions[s];
    FramesStay(sys, sys');
    assert GoodSession(sys, s);
    InputKeepsTally(session.job, session.progress, input);
    if session.honest {
      InputKeepsFaithful(session, input);
    }
    forall t: nat | t < |sys'.sessions| ensures GoodSession(sys', t) {
      assert GoodSession(sys, t);
    }
  }

  lemma TurnKeeps(sys: System, s: nat, turning: Turning)
    requires Inv(sys)
    ensures Inv(DoTurn(sys, s, turning))
  {
    if s < |sys.sessions| && sys.sessions[s].progress.status.Running? {
      assert GoodSession(sys, s);
      var ch := sys.sessions[s].ch;
      var c := sys.table.channels[ch];
      if turning.Receive? && c.buffer != [] {
        var popped := sys.(table := sys.table.Pop(ch));
        assert Authentic(sys.sessions, c.buffer[0].frame);
        PopKeepsInv(sys, ch);
        AdvanceKeeps(popped, s, Arrived(c.buffer[0].frame, turning.sinkOk));
      } else {
        AdvanceKeeps(sys, s,
                     if turning.Gone? then ClientGone else if turning.Late? then DeadlineHit else ChannelClosed);
      }
    }
  }

  lemma PopKeepsInv(sys: System, ch: nat)
    requires Inv(sys) && ch < |sys.table.channels| && sys.table.channels[ch].buffer != []
    ensures Inv(sys.(table := sys.table.Pop(ch)))
  {
    var sys' := sys.(table := sys.table.Pop(ch));
    PopKeeps(sys, ch);
    forall t: nat | t < |sys'.sessions| ensures GoodSession(sys', t) {
      assert GoodSession(sys, t);
    }
  }

  lemma PopKeeps(sys: System, ch: nat)
    requires sys.table.Valid() && GoodFrames(sys) && GoodClosing(sys)
    requires ch < |sys.table.channels| && sys.table.channels[ch].buffer != []
    ensures var sys' := sys.(table := sys.table.Pop(ch)); sys'.table.Valid() && GoodFrames(sys') && GoodClosing(sys')
  {
    var t := sys.table.Pop(ch);
    forall c, i | c in t.channels && 0 <= i < |c.buffer| ensures c.buffer[i].from == c.owner {
      var k :| 0 <= k < |t.channels| && t.channels[k] == c;
      if k == ch {
        assert c.buffer[i] == sys.table.channels[ch].buffer[i + 1];
      }
    }
    forall c | c in t.channels ensures |c.buffer| <= BUFFER {
      var k :| 0 <= k < |t.channels| && t.channels[k] == c;
      assert sys.table.channels[k] in sys.table.channels;
    }
    forall c, i | 0 <= c < |t.channels| && 0 <= i < |t.channels[c].buffer|
      ensures Authentic(sys.sessions, t.channels[c].buffer[i].frame)
    {
      if c == ch {
        assert t.channels[c].buffer[i] == sys.table.channels[c].buffer[i + 1];
      }
    }
  }

  lemma BeginCloseKeeps(sys: System, s: nat)
    requires Inv(sys)
    ensures Inv(DoBeginClose(sys, s))
  {
    var sys' := DoBeginClose(sys, s);
    if sys' != sys {
      FramesStay(sys, sys');
      forall t: nat | t < |sys'.sessions| ensures GoodSession(sys', t) {
        assert GoodSession(sys, t);
      }
    }
  }

  lemma EndCloseKeeps(sys: System, ch: nat)
    requires Inv(sys)
    ensures Inv(DoEndClose(sys, ch))
  {
    var sys' := DoEndClose(sys, ch);
    if ch in sys.closing {
      forall c, i | 0 <= c < |sys'.table.channels| && 0 <= i < |sys'.table.channels[c].buffer|
        ensures Authentic(sys'.sessions, sys'.table.channels[c].buffer[i].frame)
      {
        assert sys'.table.channels[c].buffer == sys.table.channels[c].buffer;
      }
      forall t: nat | t < |sys'.sessions| ensures GoodSession(sys', t) {
        assert GoodSession(sys, t);
      }
    }
  }

  lemma ProviderStepKeeps(sys: System, step: Step)
    requires Inv(sys) && (step.Start? || step.Handle? || step.Produce?)
    ensures Inv(Next(sys, step))
  {
    match step
    case Start(jobId, provider, honest, maxTokens, maxPromptUnits) =>
      StartKeeps(sys, jobId, provider, honest, maxTokens, maxPromptUnits);
    case Handle(s) => HandleKeeps(sys, s);
    case Produce(s, run, token) => ProduceKeeps(sys, s, run, token);
    case _ =>
  }

  lemma RelayStepKeeps(sys: System, step: Step)
    requires Inv(sys) && (step.Arrive? || step.Turn?)
    ensures Inv(Next(sys, step))
  {
    if step.Arrive? {
      ArriveKeeps(sys, step.jobId, step.from, step.frame);
    } else {
      TurnKeeps(sys, step.s, step.turning);
    }
  }

  lemma CloseStepKeeps(sys: System, step: Step)
    requires Inv(sys) && (step.BeginClose? || step.EndClose?)
    ensures Inv(Next(sys, step))
  {
    if step.BeginClose? {
      BeginCloseKeeps(sys, step.s);
    } else {
      EndCloseKeeps(sys, step.ch);
    }
  }

  lemma NextKeeps(sys: System, step: Step)
    requires Inv(sys)
    ensures Inv(Next(sys, step))
  {
    if step.Start? || step.Handle? || step.Produce? {
      ProviderStepKeeps(sys, step);
    } else if step.Arrive? || step.Turn? {
      RelayStepKeeps(sys, step);
    } else {
      CloseStepKeeps(sys, step);
    }
  }

  /** Safety over every run: no interleaving panics, every buffered event came from the
      channel's own provider, and every relay's output is faithful to its provider. */
  lemma {:induction false} EveryRunIsSafe(steps: seq<Step>)
    ensures Inv(Exec(INIT, steps))
  {
    if steps == [] {
    } else {
      EveryRunIsSafe(steps[..|steps| - 1]);
      NextKeeps(Exec(INIT, steps[..|steps| - 1]), steps[|steps| - 1]);
    }
  }

  /** In every reachable state no registered job's channel is closed, so nothing can be sent on a
      closed channel, and every channel on the way to be closed is still open and nobody's, so none
      is closed twice. */
  lemma NothingCanPanic(steps: seq<Step>)
    ensures var sys := Exec(INIT, steps);
      && !sys.panicked
      && (forall id | id in sys.table.m ::
            sys.table.m[id].ch < |sys.table.channels| && !sys.table.channels[sys.table.m[id].ch].closed)
      && (forall ch | ch in sys.closing ::
            sys.closing[ch] == 1 && ch < |sys.table.channels| && !sys.table.channels[ch].closed)
      && (forall id | id in sys.table.m :: sys.table.m[id].ch !in sys.closing)
  {
    EveryRunIsSafe(steps);
  }

  // ---------------------------------------------------------------- every job can be ended

  lemma EndingTurn(sys: System, s: nat, turning: Turning)
    requires Inv(sys) && s < |sys.sessions| && sys.sessions[s].progress.status.Running?
    requires turning == Late || turning == Gone
    ensures var p := sys.sessions[s].progress;
      DoTurn(sys, s, turning)
      == sys.(sessions := sys.sessions[s := sys.sessions[s].(progress :=
           if turning == Late then p.(cancels := p.cancels + [DeadlineReason], status := Failed(DeadlinePassed))
           else p.(cancels := p.cancels + [ClientDisconnect], status := Failed(ClientDisconnected)))])
  {
    assert GoodSession(sys, s);
  }

  /** The session's place in the table is free and its channel on the way to be closed. No other
      job's place and no channel has changed. */
  ghost predicate GivenUp(before: System, after: System, s: nat)
    requires s < |before.sessions| && s < |after.sessions|
  {
    var jobId := before.sessions[s].job.jobId;
    && after.sessions[s].released && jobId !in after.table.m
    && (jobId in before.table.m ==> before.table.m[jobId].ch in after.closing)
    && after.table.channels == before.table.channels && !after.panicked
    && forall id | id != jobId ::
      && (id in after.table.m <==> id in before.table.m)
      && (id in before.table.m ==> after.table.m[id] == before.table.m[id])
  }

  /** A call starts closing its channel only once its loop has ended. */
  ghost predicate RunningKeepTheirPlace(sys: System) {
    forall s: nat | s < |sys.sessions| && sys.sessions[s].progress.status.Running? :: !sys.sessions[s].released
  }

  lemma {:induction false} RunningIsNotReleased(steps: seq<Step>)
    ensures RunningKeepTheirPlace(Exec(INIT, steps))
  {
    if steps == [] {
    } else {
      RunningIsNotReleased(steps[..|steps| - 1]);
      var before, step := Exec(INIT, steps[..|steps| - 1]), steps[|steps| - 1];
      assert RunningKeepTheirPlace(Next(before, step));
    }
  }

  lemma GivingUp(sys: System, s: nat)
    requires Inv(sys) && s < |sys.sessions|
    requires !sys.sessions[s].progress.status.Running? && !sys.sessions[s].released
    ensures |DoBeginClose(sys, s).sessions| == |sys.sessions| && GivenUp(sys, DoBeginClose(sys, s), s)
    ensures DoBeginClose(sys, s).sessions[s].progress == sys.sessions[s].progress
  {
  }

  lemma EndAndGiveUp(sys: System, s: nat, turning: Turning)
    requires Inv(sys) && s < |sys.sessions| && sys.sessions[s].progress.status.Running?
    requires !sys.sessions[s].released && (turning == Late || turning == Gone)
    ensures var after := DoBeginClose(DoTurn(sys, s, turning), s);
      && |after.sessions| == |sys.sessions| && GivenUp(sys, after, s)
      && after.sessions[s].progress.status == Failed(if turning == Late then DeadlinePassed else ClientDisconnected)
      && after.sessions[s].progress.cancels
         == sys.sessions[s].progress.cancels + [if turning == Late then DeadlineReason else ClientDisconnect]
  {
    EndingTurn(sys, s, turning);
    TurnKeeps(sys, s, turning);
    GivingUp(DoTurn(sys, s, turning), s);
  }

  /** In every reachable state the deadline, or the client's leaving, ends a running job: it fails
      for that cause, sends one cancel frame with that reason, and gives up its place. */
  lemma EveryJobCanBeEnded(steps: seq<Step>, s: nat, turning: Turning)
    requires s < |Exec(INIT, steps).sessions| && Exec(INIT, steps).sessions[s].progress.status.Running?
    requires turning == Late || turning == Gone
    ensures var before, after := Exec(INIT, steps), Exec(INIT, steps + [Turn(s, turning)] + [BeginClose(s)]);
      && |after.sessions| == |before.sessions| && GivenUp(before, after, s)
      && after.sessions[s].progress.status == Failed(if turning == Late then DeadlinePassed else ClientDisconnected)
      && after.sessions[s].progress.cancels
         == before.sessions[s].progress.cancels + [if turning == Late then DeadlineReason else ClientDisconnect]
  {
    EveryRunIsSafe(steps);
    RunningIsNotReleased(steps);
    ExecAppend(INIT, steps, Turn(s, turning));
    ExecAppend(INIT, steps + [Turn(s, turning)], BeginClose(s));
    EndAndGiveUp(Exec(INIT, steps), s, turning);
  }

  lemma ReadingClosed(sys: System, s: nat, sinkOk: bool)
    requires s < |sys.sessions| && sys.sessions[s].progress.status.Running? && sys.sessions[s].ch < |sys.table.channels|
    requires var c := sys.table.channels[sys.sessions[s].ch]; c.closed && c.buffer == []
    ensures var after := DoTurn(sys, s, Receive(sinkOk));
      && after.table == sys.table
      && s < |after.sessions| && after.sessions[s].progress.status == Failed(ProviderGone)
  {
  }

  /** A channel on the way to be closed can be closed, and a job that still reads from it finds out:
      with nothing left to read, its next turn ends it. */
  lemma ClosingEndsReaders(steps: seq<Step>, ch: nat, s: nat, sinkOk: bool)
    requires var sys := Exec(INIT, steps); ch in sys.closing && ch < |sys.table.channels|
    requires var sys := Exec(INIT, steps);
      && s < |sys.sessions| && sys.sessions[s].ch == ch && sys.sessions[s].progress.status.Running?
      && sys.table.channels[ch].buffer == []
    ensures var after := Exec(INIT, steps + [EndClose(ch)] + [Turn(s, Receive(sinkOk))]);
      && ch < |after.table.channels| && after.table.channels[ch].closed
      && s < |after.sessions| && after.sessions[s].progress.status == Failed(ProviderGone)
  {
    EveryRunIsSafe(steps);
    assert !Exec(INIT, steps).table.channels[ch].closed;
    ExecAppend(INIT, steps, EndClose(ch));
    ExecAppend(INIT, steps + [EndClose(ch)], Turn(s, Receive(sinkOk)));
    ReadingClosed(Exec(INIT, steps + [EndClose(ch)]), s, sinkOk);
  }

  // ---------------------------------------------------------------- what a caller receives

  function Text(parts: seq<string>): string {
    if parts == [] then "" else Text(parts[..|parts| - 1]) + parts[|parts| - 1]
  }

  lemma {:induction false} SkippingEmptyKeepsText(tokens: seq<string>)
    ensures Text(NonEmpty(tokens)) == Text(tokens)
  {
    if tokens == [] {
    } else {
      var init, last := tokens[..|tokens| - 1], tokens[|tokens| - 1];
      SkippingEmptyKeepsText(init);
      if last == "" {
        assert NonEmpty(tokens) == NonEmpty(init) && Text(init) + last == Text(init);
      } else {
        assert NonEmpty(tokens)[..|NonEmpty(init)|] == NonEmpty(init);
      }
    }
  }

  /** The relay's output is the beginning of one run of its provider. */
  ghost predicate Exact(s: Session) {
    || (s.progress.expectedSeq == 0 && s.progress.delivered == [])
    || exists g :: 0 <= g < |s.runs| && IsBeginning(s.progress, s.runs[g])
  }

  ghost predicate IsBeginning(p: Progress, run: seq<string>) {
    p.expectedSeq <= |run| && p.delivered == NonEmpty(run[..p.expectedSeq])
  }

  /** A job that succeeds against an honest provider reports N within a positive ceiling and
      hands the caller the concatenation of N tokens, the k-th of which is the k-th token of some
      run of the job — whatever the network, other providers and other jobs did, and however often
      the request was delivered. (Past 2^32 - 1 tokens the number is the saturated one.) */
  lemma SuccessIsFaithful(steps: seq<Step>, s: nat) returns (taken: seq<string>)
    requires s < |Exec(INIT, steps).sessions|
    requires Exec(INIT, steps).sessions[s].honest && Exec(INIT, steps).sessions[s].progress.status.Finished?
    ensures var session := Exec(INIT, steps).sessions[s];
      var n := session.progress.status.usage.completionTokens;
      && n == session.progress.expectedSeq == |taken| <= U32_MAX + 1
      && (session.job.maxTokens > 0 ==> n <= session.job.maxTokens)
      && Text(session.progress.delivered) == Text(taken)
      && (forall k | 0 <= k < |taken| :: Produced(session.runs, k, taken[k]))
  {
    EveryRunIsSafe(steps);
    assert GoodSession(Exec(INIT, steps), s);
    var session := Exec(INIT, steps).sessions[s];
    taken :| Explains(session.runs, session.progress, taken);
    SkippingEmptyKeepsText(taken);
  }

  lemma ByOnlyRun(runs: seq<seq<string>>, n: nat, token: string)
    requires |runs| == 1 && n < U32_MAX && Produced(runs, n, token)
    ensures n < |runs[0]| && token == runs[0][n]
  {
    var g, k :| 0 <= g < |runs| && 0 <= k < |runs[g]| && SeqNo(k) == n && runs[g][k] == token;
    assert k == n;
  }

  lemma OnlyRun(run: seq<string>, p: Progress, taken: seq<string>)
    requires Explains([run], p, taken) && p.expectedSeq <= U32_MAX
    ensures p.expectedSeq <= |run| && taken == run[..p.expectedSeq]
  {
    forall n | 0 <= n < |taken| ensures n < |run| && taken[n] == run[n] {
      assert Produced([run], n, taken[n]);
      ByOnlyRun([run], n, taken[n]);
    }
  }

  /** When the provider was handed the request once, a job that succeeds with at most 2^32 - 1
      tokens hands the caller exactly the first N tokens of its run. */
  lemma SuccessOfOneRun(steps: seq<Step>, s: nat)
    requires s < |Exec(INIT, steps).sessions| && |Exec(INIT, steps).sessions[s].runs| == 1
    requires Exec(INIT, steps).sessions[s].honest && Exec(INIT, steps).sessions[s].progress.status.Finished?
    requires Exec(INIT, steps).sessions[s].progress.expectedSeq <= U32_MAX
    ensures var session := Exec(INIT, steps).sessions[s];
      var n := session.progress.status.usage.completionTokens;
      0 <= n <= |session.runs[0]| && Text(session.progress.delivered) == Text(session.runs[0][..n])
  {
    var session := Exec(INIT, steps).sessions[s];
    EveryRunIsSafe(steps);
    assert GoodSession(Exec(INIT, steps), s);
    var taken :| Explains(session.runs, session.progress, taken);
    assert session.runs == [session.runs[0]];
    OnlyRun(session.runs[0], session.progress, taken);
    SkippingEmptyKeepsText(taken);
  }

  // ---------------------------------------------------------------- runs built step by step

  lemma ExecAppend(sys: System, steps: seq<Step>, step: Step)
    ensures Exec(sys, steps + [step]) == Next(Exec(sys, steps), step)
  {
    assert (steps + [step])[..|steps|] == steps;
  }

  lemma {:induction false} ExecConcat(sys: System, a: seq<Step>, b: seq<Step>)
    ensures Exec(sys, a + b) == Exec(Exec(sys, a), b)
  {
    if b == [] {
      assert a + b == a;
    } else {
      assert (a + b)[..|a + b| - 1] == a + b[..|b| - 1];
      ExecConcat(sys, a, b[..|b| - 1]);
    }
  }

  lemma ExecTwo(sys: System, a: Step, b: Step)
    ensures Exec(sys, [a, b]) == Next(Next(sys, a), b)
  {
    assert [a, b][..1] == [a] && [a][..0] == [];
    assert Exec(sys, [a]) == Next(Exec(sys, []), a);
  }

  function TheTable(): Table {
    Table(map["job" := Assignment("node", 0)], [Channel("node", [], false)])
  }

  /** One honest job of provider `node`, its channel read empty. */
  function OneJob(maxTokens: int, maxPromptUnits: int, runs: seq<seq<string>>, progress: Progress): System {
    System(TheTable(), [Session(Job("job", 0, maxTokens, maxPromptUnits), "node", true, 0, runs, progress, false)],
           multiset{}, false)
  }

  function Reached(taken: seq<string>): Progress {
    Progress(|taken|, NonEmpty(taken), [], Running)
  }

  lemma Begins(maxTokens: int, maxPromptUnits: int)
    ensures Exec(INIT, [Start("job", "node", true, maxTokens, maxPromptUnits)])
         == OneJob(maxTokens, maxPromptUnits, [], Reached([]))
  {
    var start := Start("job", "node", true, maxTokens, maxPromptUnits);
    ExecAppend(INIT, [], start);
    assert [] + [start] == [start];
    assert NonEmpty([]) == [];
  }

  lemma RequestArrives(steps: seq<Step>, maxTokens: int, maxPromptUnits: int, runs: seq<seq<string>>, p: Progress,
                       longer: seq<seq<string>>)
    requires Exec(INIT, steps) == OneJob(maxTokens, maxPromptUnits, runs, p) && longer == runs + [[]]
    ensures Exec(INIT, steps + [Handle(0)]) == OneJob(maxTokens, maxPromptUnits, longer, p)
  {
    ExecAppend(INIT, steps, Handle(0));
  }

  /** `longer` is `runs` with one more token at the end of one run. */
  ghost predicate OneMore(runs: seq<seq<string>>, run: nat, token: string, longer: seq<seq<string>>) {
    run < |runs| && longer == runs[run := runs[run] + [token]]
  }

  lemma TokenIsMade(steps: seq<Step>, maxTokens: int, runs: seq<seq<string>>, p: Progress,
                    run: nat, token: string, longer: seq<seq<string>>, maxPromptUnits: int)
    requires Exec(INIT, steps) == OneJob(maxTokens, maxPromptUnits, runs, p) && OneMore(runs, run, token, longer)
    ensures Exec(INIT, steps + [Produce(0, run, token)]) == OneJob(maxTokens, maxPromptUnits, longer, p)
  {
    ExecAppend(INIT, steps, Produce(0, run, token));
  }

  /** `frame` arrives and is read at once. */
  function Reading(frame: Frame): seq<Step> {
    [Arrive("job", "node", frame), Turn(0, Receive(true))]
  }

  lemma ArriveAndRead(maxTokens: int, maxPromptUnits: int, runs: seq<seq<string>>, p: Progress, frame: Frame)
    requires p.status.Running?
    requires Authentic(OneJob(maxTokens, maxPromptUnits, runs, p).sessions, frame)
    ensures var sys := OneJob(maxTokens, maxPromptUnits, runs, p);
      DoTurn(DoArrive(sys, "job", "node", frame), 0, Receive(true)) == Advance(sys, 0, Arrived(frame, true))
  {
    var t := TheTable().Deliver("job", "node", frame);
    assert TheTable().Accepts("job", "node");
    assert t.channels[0].buffer == [Routed("node", frame)];
    assert t.channels[0].buffer[1..] == [];
    assert t.Pop(0).channels == TheTable().channels;
  }

  lemma FrameIsRead(steps: seq<Step>, maxTokens: int, maxPromptUnits: int, runs: seq<seq<string>>,
                    p: Progress, frame: Frame)
    requires Exec(INIT, steps) == OneJob(maxTokens, maxPromptUnits, runs, p) && p.status.Running?
    requires Authentic(OneJob(maxTokens, maxPromptUnits, runs, p).sessions, frame)
    ensures Exec(INIT, steps + Reading(frame))
         == OneJob(maxTokens, maxPromptUnits, runs,
                   OnInput(Job("job", 0, maxTokens, maxPromptUnits), p, Arrived(frame, true)))
  {
    var sys := OneJob(maxTokens, maxPromptUnits, runs, p);
    ExecConcat(INIT, steps, Reading(frame));
    ExecTwo(sys, Arrive("job", "node", frame), Turn(0, Receive(true)));
    ArriveAndRead(maxTokens, maxPromptUnits, runs, p, frame);
    AdvanceOne(maxTokens, maxPromptUnits, runs, p, Arrived(frame, true));
  }

  lemma AdvanceOne(maxTokens: int, maxPromptUnits: int, runs: seq<seq<string>>, p: Progress, input: Input)
    ensures Advance(OneJob(maxTokens, maxPromptUnits, runs, p), 0, input)
         == OneJob(maxTokens, maxPromptUnits, runs, OnInput(Job("job", 0, maxTokens, maxPromptUnits), p, input))
  {
  }

  /** The relay takes the frame of any token that carries the next number. */
  lemma TokenIsTaken(steps: seq<Step>, maxTokens: int, maxPromptUnits: int, runs: seq<seq<string>>, taken: seq<string>,
                     run: nat, k: nat)
    requires Exec(INIT, steps) == OneJob(maxTokens, maxPromptUnits, runs, Reached(taken))
    requires run < |runs| && k < |runs[run]| && SeqNo(k) == |taken| && (maxTokens > 0 ==> |taken| < maxTokens)
    ensures Exec(INIT, steps + Reading(TokenFrame("job", 0, k, runs[run][k])))
         == OneJob(maxTokens, maxPromptUnits, runs, Reached(taken + [runs[run][k]]))
  {
    var token := runs[run][k];
    assert Produced(runs, SeqNo(k), token);
    FrameIsRead(steps, maxTokens, maxPromptUnits, runs, Reached(taken), TokenFrame("job", 0, k, token));
    OneMoreDelivered(taken, token);
    NextIsTaken(Job("job", 0, maxTokens, maxPromptUnits), |taken|, NonEmpty(taken), k, token);
  }

  lemma NextIsTaken(job: Job, n: nat, delivered: seq<string>, k: nat, token: string)
    requires job.jobId == "job" && job.key == 0 && SeqNo(k) == n && (job.maxTokens > 0 ==> n < job.maxTokens)
    ensures OnInput(job, Progress(n, delivered, [], Running), Arrived(TokenFrame("job", 0, k, token), true))
         == Progress(n + 1, delivered + (if token == "" then [] else [token]), [], Running)
  {
  }

  lemma DoneIsTaken(steps: seq<Step>, maxTokens: int, maxPromptUnits: int, runs: seq<seq<string>>, taken: seq<string>)
    requires Exec(INIT, steps) == OneJob(maxTokens, maxPromptUnits, runs, Reached(taken)) && 0 <= maxPromptUnits
    ensures Exec(INIT, steps + Reading(DoneFrame("job", 0, "stop")))
         == OneJob(maxTokens, maxPromptUnits, runs, Ended(taken))
  {
    FrameIsRead(steps, maxTokens, maxPromptUnits, runs, Reached(taken), DoneFrame("job", 0, "stop"));
    DoneFinishes(Job("job", 0, maxTokens, maxPromptUnits), |taken|, NonEmpty(taken));
  }

  function Ended(taken: seq<string>): Progress {
    Reached(taken).(status := Finished(Usage(0, |taken|, |taken|), "stop"))
  }

  lemma DoneFinishes(job: Job, n: nat, delivered: seq<string>)
    requires job.jobId == "job" && 0 <= job.maxPromptUnits
    ensures OnInput(job, Progress(n, delivered, [], Running), Arrived(DoneFrame("job", 0, "stop"), true))
         == Progress(n, delivered, [], Finished(Usage(0, n, n), "stop"))
  {
  }

  // ---------------------------------------------------------------- a run that loses nothing

  /** The request handled once, and every token delivered and read as soon as it is produced. */
  function InOrder(tokens: seq<string>, maxTokens: int, maxPromptUnits: int): seq<Step> {
    if tokens == [] then [Start("job", "node", true, maxTokens, maxPromptUnits)] + [Handle(0)]
    else
      var k := |tokens| - 1;
      InOrder(tokens[..k], maxTokens, maxPromptUnits) + [Produce(0, 0, tokens[k])]
      + Reading(TokenFrame("job", 0, k, tokens[k]))
  }

  lemma {:induction false} InOrderLosesNothing(tokens: seq<string>, maxTokens: int, maxPromptUnits: int)
    requires |tokens| <= U32_MAX && (maxTokens > 0 ==> |tokens| <= maxTokens)
    ensures Exec(INIT, InOrder(tokens, maxTokens, maxPromptUnits))
         == OneJob(maxTokens, maxPromptUnits, [tokens], Reached(tokens))
  {
    if tokens == [] {
      var start := [Start("job", "node", true, maxTokens, maxPromptUnits)];
      Begins(maxTokens, maxPromptUnits);
      assert [] + [tokens] == [tokens];
      RequestArrives(start, maxTokens, maxPromptUnits, [], Reached([]), [tokens]);
    } else {
      var k := |tokens| - 1;
      var init, token := tokens[..k], tokens[k];
      var before := InOrder(init, maxTokens, maxPromptUnits);
      assert init + [token] == tokens;
      InOrderLosesNothing(init, maxTokens, maxPromptUnits);
      assert [init][0 := tokens] == [tokens];
      TokenIsMade(before, maxTokens, [init], Reached(init), 0, token, [tokens], maxPromptUnits);
      TokenIsTaken(before + [Produce(0, 0, token)], maxTokens, maxPromptUnits, [tokens], init, 0, k);
    }
  }

  /** The promise is not empty: every text within the ceiling has a run that delivers all of it. */
  lemma EveryTextCanArrive(tokens: seq<string>, maxTokens: int, maxPromptUnits: int) returns (steps: seq<Step>)
    requires |tokens| <= U32_MAX && (maxTokens > 0 ==> |tokens| <= maxTokens) && 0 <= maxPromptUnits
    ensures Exec(INIT, steps) == OneJob(maxTokens, maxPromptUnits, [tokens], Ended(tokens))
  {
    var read := InOrder(tokens, maxTokens, maxPromptUnits);
    InOrderLosesNothing(tokens, maxTokens, maxPromptUnits);
    DoneIsTaken(read, maxTokens, maxPromptUnits, [tokens], tokens);
    steps := read + Reading(DoneFrame("job", 0, "stop"));
  }

  // ---------------------------------------------------------------- when output is exact

  /** Under the ceiling `maxTokens`, with every request handled at most `handlings` times, every
      honest session of every run is exact. */
  ghost predicate AlwaysExact(maxTokens: int, handlings: nat) {
    forall steps: seq<Step>, s: nat | s < |Exec(INIT, steps).sessions| ::
      IsCase(Exec(INIT, steps).sessions[s], maxTokens, handlings) ==> Exact(Exec(INIT, steps).sessions[s])
  }

  ghost predicate IsCase(s: Session, maxTokens: int, handlings: nat) {
    s.honest && s.job.maxTokens == maxTokens && |s.runs| <= handlings
  }

  /** 2^32 - 1 tokens in order, then two more of which the second overtakes the first: both
      carry the saturated number, and the relay takes the wrong one. */
  lemma SaturationConfusesTokens(maxTokens: int) returns (steps: seq<Step>)
    requires maxTokens <= 0 || maxTokens > U32_MAX
    ensures var sys := Exec(INIT, steps);
      |sys.sessions| == 1 && IsCase(sys.sessions[0], maxTokens, 1) && !Exact(sys.sessions[0])
  {
    var tokens := seq(U32_MAX, _ => "a");
    var longer := tokens + ["x"];
    var run := longer + ["y"];
    steps := InOrder(tokens, maxTokens, 0);
    InOrderLosesNothing(tokens, maxTokens, 0);
    assert [tokens][0 := longer] == [longer] && [longer][0 := run] == [run];
    TokenIsMade(steps, maxTokens, [tokens], Reached(tokens), 0, "x", [longer], 0);
    steps := steps + [Produce(0, 0, "x")];
    TokenIsMade(steps, maxTokens, [longer], Reached(tokens), 0, "y", [run], 0);
    steps := steps + [Produce(0, 0, "y")];
    assert run[U32_MAX + 1] == "y";
    TokenIsTaken(steps, maxTokens, 0, [run], tokens, 0, U32_MAX + 1);
    steps := steps + Reading(TokenFrame("job", 0, U32_MAX + 1, "y"));
    LateTokenIsWrong(tokens, run);
  }

  lemma LateTokenIsWrong(tokens: seq<string>, run: seq<string>)
    requires run == tokens + ["x"] + ["y"]
    ensures !IsBeginning(Reached(tokens + ["y"]), run)
  {
    assert run[..|tokens| + 1] == tokens + ["x"];
    OneMoreDelivered(tokens, "x");
    OneMoreDelivered(tokens, "y");
    assert (NonEmpty(tokens) + ["y"])[|NonEmpty(tokens)|] != (NonEmpty(tokens) + ["x"])[|NonEmpty(tokens)|];
  }

  /** The request is delivered twice, the provider generates twice under one key, and the network
      drops the second token of one run and the first of the other: the job succeeds with a text
      that neither run produced. */
  lemma TwoRunsMix(maxTokens: int) returns (steps: seq<Step>)
    requires maxTokens != 1
    ensures var sys := Exec(INIT, steps);
      && |sys.sessions| == 1 && IsCase(sys.sessions[0], maxTokens, 2) && !Exact(sys.sessions[0])
      && sys.sessions[0].runs == [["a", "c"], ["b", "d"]] && sys.sessions[0].progress == Ended(["a", "d"])
  {
    steps := TwoRunsAreMade(maxTokens);
    steps := MixIsRead(steps, maxTokens);
    MixedIsNoBeginning();
  }

  lemma MixIsRead(steps: seq<Step>, maxTokens: int) returns (more: seq<Step>)
    requires maxTokens != 1
    requires Exec(INIT, steps) == OneJob(maxTokens, 0, [["a", "c"], ["b", "d"]], Reached([]))
    ensures Exec(INIT, more) == OneJob(maxTokens, 0, [["a", "c"], ["b", "d"]], Ended(["a", "d"]))
  {
    var runs := [["a", "c"], ["b", "d"]];
    TokenIsTaken(steps, maxTokens, 0, runs, [], 0, 0);
    more := steps + Reading(TokenFrame("job", 0, 0, "a"));
    assert [] + ["a"] == ["a"] && ["a"] + ["d"] == ["a", "d"];
    TokenIsTaken(more, maxTokens, 0, runs, ["a"], 1, 1);
    more := more + Reading(TokenFrame("job", 0, 1, "d"));
    DoneIsTaken(more, maxTokens, 0, runs, ["a", "d"]);
    more := more + Reading(DoneFrame("job", 0, "stop"));
  }

  lemma TwoRunsAreMade(maxTokens: int) returns (steps: seq<Step>)
    ensures Exec(INIT, steps) == OneJob(maxTokens, 0, [["a", "c"], ["b", "d"]], Reached([]))
  {
    var none: seq<string> := [];
    steps := [Start("job", "node", true, maxTokens, 0)];
    Begins(maxTokens, 0);
    assert [] + [none] == [none] && [none] + [none] == [none, none];
    RequestArrives(steps, maxTokens, 0, [], Reached([]), [none]);
    steps := steps + [Handle(0)];
    RequestArrives(steps, maxTokens, 0, [none], Reached([]), [none, none]);
    steps := FirstRunIsMade(steps + [Handle(0)], maxTokens);
    steps := SecondRunIsMade(steps, maxTokens);
  }

  lemma FirstRunIsMade(steps: seq<Step>, maxTokens: int) returns (more: seq<Step>)
    requires Exec(INIT, steps) == OneJob(maxTokens, 0, [[], []], Reached([]))
    ensures Exec(INIT, more) == OneJob(maxTokens, 0, [["a", "c"], []], Reached([]))
  {
    FirstOfTwoGrows([], [], "a", ["a"]);
    TokenIsMade(steps, maxTokens, [[], []], Reached([]), 0, "a", [["a"], []], 0);
    FirstOfTwoGrows(["a"], [], "c", ["a", "c"]);
    TokenIsMade(steps + [Produce(0, 0, "a")], maxTokens, [["a"], []], Reached([]), 0, "c", [["a", "c"], []], 0);
    more := steps + [Produce(0, 0, "a")] + [Produce(0, 0, "c")];
  }

  lemma SecondRunIsMade(steps: seq<Step>, maxTokens: int) returns (more: seq<Step>)
    requires Exec(INIT, steps) == OneJob(maxTokens, 0, [["a", "c"], []], Reached([]))
    ensures Exec(INIT, more) == OneJob(maxTokens, 0, [["a", "c"], ["b", "d"]], Reached([]))
  {
    SecondOfTwoGrows(["a", "c"], [], "b", ["b"]);
    TokenIsMade(steps, maxTokens, [["a", "c"], []], Reached([]), 1, "b", [["a", "c"], ["b"]], 0);
    SecondOfTwoGrows(["a", "c"], ["b"], "d", ["b", "d"]);
    TokenIsMade(steps + [Produce(0, 1, "b")], maxTokens, [["a", "c"], ["b"]], Reached([]), 1, "d",
                [["a", "c"], ["b", "d"]], 0);
    more := steps + [Produce(0, 1, "b")] + [Produce(0, 1, "d")];
  }

  lemma FirstOfTwoGrows(a: seq<string>, b: seq<string>, token: string, longer: seq<string>)
    requires longer == a + [token]
    ensures OneMore([a, b], 0, token, [longer, b])
  {
    assert [a, b][0 := longer] == [longer, b];
  }

  lemma SecondOfTwoGrows(a: seq<string>, b: seq<string>, token: string, longer: seq<string>)
    requires longer == b + [token]
    ensures OneMore([a, b], 1, token, [a, longer])
  {
    assert [a, b][1 := longer] == [a, longer];
  }

  lemma TwoDelivered(x: string, y: string)
    requires x != "" && y != ""
    ensures NonEmpty([x, y]) == [x, y]
  {
    assert [x, y][..1] == [x] && [x][..0] == [];
    assert NonEmpty([x]) == [x];
  }

  lemma MixedIsNoBeginning()
    ensures !IsBeginning(Ended(["a", "d"]), ["a", "c"]) && !IsBeginning(Ended(["a", "d"]), ["b", "d"])
  {
    TwoDelivered("a", "d");
    TwoDelivered("a", "c");
    TwoDelivered("b", "d");
    assert ["a", "c"][..2] == ["a", "c"] && ["b", "d"][..2] == ["b", "d"];
    assert ["a", "d"][1] != ["a", "c"][1] && ["a", "d"][0] != ["b", "d"][0];
  }

  /** At most one token, or tokens of at most one run: the output is exact. */
  lemma FaithfulIsExact(session: Session)
    requires Faithful(session.runs, session.progress) && session.progress.expectedSeq <= U32_MAX
    requires session.progress.expectedSeq <= 1 || |session.runs| <= 1
    ensures Exact(session)
  {
    var p := session.progress;
    var taken :| Explains(session.runs, p, taken);
    if taken != [] {
      assert Produced(session.runs, 0, taken[0]);
      var g, k :| 0 <= g < |session.runs| && 0 <= k < |session.runs[g]|
        && SeqNo(k) == 0 && session.runs[g][k] == taken[0];
      if |session.runs| == 1 {
        assert session.runs == [session.runs[0]];
        OnlyRun(session.runs[0], p, taken);
      } else {
        assert session.runs[g][..1] == taken;
      }
      assert IsBeginning(p, session.runs[g]);
    }
  }

  lemma TakenNeedsRun(runs: seq<seq<string>>, p: Progress)
    requires Faithful(runs, p)
    ensures if p.expectedSeq == 0 then p.delivered == [] else runs != []
  {
    var taken :| Explains(runs, p, taken);
    assert taken != [] ==> Produced(runs, 0, taken[0]);
  }

  lemma CaseIsExact(steps: seq<Step>, s: nat, maxTokens: int, handlings: nat)
    requires handlings == 0 || (1 <= maxTokens <= U32_MAX && (handlings == 1 || maxTokens == 1))
    requires s < |Exec(INIT, steps).sessions| && IsCase(Exec(INIT, steps).sessions[s], maxTokens, handlings)
    ensures Exact(Exec(INIT, steps).sessions[s])
  {
    var session := Exec(INIT, steps).sessions[s];
    EveryRunIsSafe(steps);
    assert GoodSession(Exec(INIT, steps), s);
    TakenNeedsRun(session.runs, session.progress);
    if session.progress.expectedSeq > 0 {
      FaithfulIsExact(session);
    }
  }

  /** Output is exact on every run precisely when the caller sets a ceiling below 2^32 and the
      request is handled once — or a single token is asked for, or nothing is handled at all. */
  lemma ExactIffHandledOnce(maxTokens: int, handlings: nat)
    ensures AlwaysExact(maxTokens, handlings)
       <==> handlings == 0 || (1 <= maxTokens <= U32_MAX && (handlings == 1 || maxTokens == 1))
  {
    if handlings == 0 || (1 <= maxTokens <= U32_MAX && (handlings == 1 || maxTokens == 1)) {
      forall steps: seq<Step>, s: nat
        | s < |Exec(INIT, steps).sessions| && IsCase(Exec(INIT, steps).sessions[s], maxTokens, handlings)
        ensures Exact(Exec(INIT, steps).sessions[s])
      {
        CaseIsExact(steps, s, maxTokens, handlings);
      }
    } else {
      var steps: seq<Step>;
      if 1 <= maxTokens <= U32_MAX {
        steps := TwoRunsMix(maxTokens);
      } else {
        steps := SaturationConfusesTokens(maxTokens);
      }
      assert 0 < |Exec(INIT, steps).sessions| && IsCase(Exec(INIT, steps).sessions[0], maxTokens, handlings);
    }
  }

  /** With the request handled once: exact precisely under a ceiling between 1 and 2^32 - 1. */
  lemma ExactIffCeilingFits(maxTokens: int)
    ensures AlwaysExact(maxTokens, 1) <==> 1 <= maxTokens <= U32_MAX
  {
    ExactIffHandledOnce(maxTokens, 1);
  }
}
