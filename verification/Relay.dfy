/** The coordinator's event loop for one job (`ExecuteOn` of `coordinator/internal/relay/relay.go`). */
module Relay {
  import opened Common
  import opened Frames

  datatype Usage = Usage(promptTokens: int, completionTokens: int, totalTokens: int)

  datatype Failure =
    | ClientDisconnected | DeadlinePassed | ProviderGone | BadFrame | CannotDecrypt
    | InvalidProviderResult | SinkFailed | ProviderError(code: string)

  datatype Status = Running | Finished(usage: Usage, finishReason: string) | Failed(why: Failure)

  datatype CancelReason = ClientDisconnect | DeadlineReason | Superseded | InvalidResult

  /** One turn of the loop's `select`. `sinkOk` says whether the caller's `onDelta` would
      accept the decrypted text. */
  datatype Input = ClientGone | DeadlineHit | ChannelClosed | Arrived(frame: Frame, sinkOk: bool)

  datatype Job = Job(jobId: string, key: nat, maxTokens: int, maxPromptUnits: int)

  /** `delivered` lists the calls of `onDelta`; `cancels` the cancel frames sent. */
  datatype Progress = Progress(expectedSeq: nat, delivered: seq<string>, cancels: seq<CancelReason>, status: Status)
  {
    function Fail(why: Failure): Progress {
      this.(status := Failed(why))
    }

    function Cancel(reason: CancelReason, why: Failure): Progress {
      this.(cancels := cancels + [reason], status := Failed(why))
    }
  }

  const START: Progress := Progress(0, [], [], Running)

  predicate OverCeiling(job: Job, expectedSeq: nat) {
    job.maxTokens > 0 && expectedSeq >= job.maxTokens
  }

  function OnChunk(job: Job, p: Progress, frameJobId: string, box: Box, sinkOk: bool): Progress {
    match Open(box, job.key)
    case None => p.Cancel(Superseded, CannotDecrypt)
    case Some(Garbled) => p.Fail(BadFrame)
    case Some(ChunkPlain(jobId, seqNo, delta)) =>
      if frameJobId != job.jobId || jobId != job.jobId || seqNo != p.expectedSeq || OverCeiling(job, p.expectedSeq) then
        p.Cancel(InvalidResult, InvalidProviderResult)
      else
        var q := p.(expectedSeq := p.expectedSeq + 1);
        if delta == "" then q
        else
          var r := q.(delivered := q.delivered + [delta]);
          if sinkOk then r else r.Cancel(ClientDisconnect, SinkFailed)
  }

  function OnInput(job: Job, p: Progress, input: Input): Progress {
    match input
    case ClientGone => p.Cancel(ClientDisconnect, ClientDisconnected)
    case DeadlineHit => p.Cancel(DeadlineReason, DeadlinePassed)
    case ChannelClosed => p.Fail(ProviderGone)
    case Arrived(ChunkFrame(jobId, box), sinkOk) => OnChunk(job, p, jobId, box, sinkOk)
    case Arrived(BadChunk, _) => p.Fail(BadFrame)
    case Arrived(DoneFrame(jobId, promptTokens, finishReason), _) =>
      if jobId != job.jobId || promptTokens < 0 || promptTokens > job.maxPromptUnits then
        p.Fail(InvalidProviderResult)
      else
        p.(status := Finished(Usage(promptTokens, p.expectedSeq, promptTokens + p.expectedSeq), finishReason))
    case Arrived(BadDone, _) => p.Fail(BadFrame)
    case Arrived(ErrorFrame(code), _) => p.Fail(ProviderError(code))
  }

  /** The loop as a fold: it stops reading once the job has ended. */
  function Run(job: Job, p: Progress, inputs: seq<Input>): Progress
    decreases |inputs|
  {
    if inputs == [] || !p.status.Running? then p else Run(job, OnInput(job, p, inputs[0]), inputs[1..])
  }

  lemma {:induction false} RunAppend(job: Job, p: Progress, inputs: seq<Input>, input: Input)
    ensures var q := Run(job, p, inputs);
      Run(job, p, inputs + [input]) == if q.status.Running? then OnInput(job, q, input) else q
    decreases |inputs|
  {
    if inputs == [] {
      assert [] + [input] == [input] && [input][1..] == [];
    } else if p.status.Running? {
      assert (inputs + [input])[0] == inputs[0] && (inputs + [input])[1..] == inputs[1..] + [input];
      RunAppend(job, OnInput(job, p, inputs[0]), inputs[1..], input);
    }
  }

  /** The event loop, reading what the `select` offers turn by turn. */
  method EventLoop(job: Job, inputs: seq<Input>) returns (end: Progress)
    ensures end == Run(job, START, inputs)
  {
    var expectedSeq := 0;
    var delivered: seq<string> := [];
    var cancels: seq<CancelReason> := [];
    var status: Status := Running;
    var turn := 0;
    while turn < |inputs| && status == Running
      invariant 0 <= turn <= |inputs| && expectedSeq >= 0
      invariant Progress(expectedSeq, delivered, cancels, status) == Run(job, START, inputs[..turn])
      invariant status != Running ==> Run(job, START, inputs) == Run(job, START, inputs[..turn])
    {
      var input := inputs[turn];
      assert inputs[..turn + 1] == inputs[..turn] + [input];
      RunAppend(job, START, inputs[..turn], input);
      turn := turn + 1;
      match input {
        case ClientGone =>
          cancels, status := cancels + [ClientDisconnect], Failed(ClientDisconnected);
        case DeadlineHit =>
          cancels, status := cancels + [DeadlineReason], Failed(DeadlinePassed);
        case ChannelClosed =>
          status := Failed(ProviderGone);
        case Arrived(ChunkFrame(frameJobId, box), sinkOk) =>
          var plain := Open(box, job.key);
          if plain.None? {
            cancels, status := cancels + [Superseded], Failed(CannotDecrypt);
          } else if plain.value.Garbled? {
            status := Failed(BadFrame);
          } else {
            var cp := plain.value;
            var overCeiling := job.maxTokens > 0 && expectedSeq >= job.maxTokens;
            if frameJobId != job.jobId || cp.jobId != job.jobId || cp.seqNo != expectedSeq || overCeiling {
              cancels, status := cancels + [InvalidResult], Failed(InvalidProviderResult);
            } else {
              expectedSeq := expectedSeq + 1;
              if cp.delta != "" {
                delivered := delivered + [cp.delta];
                if !sinkOk {
                  cancels, status := cancels + [ClientDisconnect], Failed(SinkFailed);
                }
              }
            }
          }
        case Arrived(BadChunk, _) =>
          status := Failed(BadFrame);
        case Arrived(DoneFrame(jobId, promptTokens, finishReason), _) =>
          if jobId != job.jobId || promptTokens < 0 || promptTokens > job.maxPromptUnits {
            status := Failed(InvalidProviderResult);
          } else {
            status := Finished(Usage(promptTokens, expectedSeq, promptTokens + expectedSeq), finishReason);
          }
        case Arrived(BadDone, _) =>
          status := Failed(BadFrame);
        case Arrived(ErrorFrame(code), _) =>
          status := Failed(ProviderError(code));
      }
      if status != Running {
        RunStays(job, inputs, turn);
      }
    }
    assert turn == |inputs| ==> inputs[..turn] == inputs;
    end := Progress(expectedSeq, delivered, cancels, status);
  }

  /** Input after the end changes nothing. */
  lemma {:induction false} RunStays(job: Job, inputs: seq<Input>, turn: nat)
    requires turn <= |inputs| && !Run(job, START, inputs[..turn]).status.Running?
    ensures Run(job, START, inputs) == Run(job, START, inputs[..turn])
    decreases |inputs| - turn
  {
    if turn == |inputs| {
      assert inputs[..turn] == inputs;
    } else {
      assert inputs[..turn + 1] == inputs[..turn] + [inputs[turn]];
      RunAppend(job, START, inputs[..turn], inputs[turn]);
      RunStays(job, inputs, turn + 1);
    }
  }

  // ---------------------------------------------------------------- when and how a job ends

  /** The text a chunk carries. */
  function DeltaOf(input: Input): string {
    if input.Arrived? && input.frame.ChunkFrame? && input.frame.box.Sealed? && input.frame.box.plain.ChunkPlain? then
      input.frame.box.plain.delta
    else ""
  }

  /** The one kind of input that keeps a job running: the chunk with the next number, sealed for
      this job, under the ceiling, and empty or accepted by the caller. */
  predicate IsToken(job: Job, n: nat, input: Input) {
    && input.Arrived? && input.frame.ChunkFrame? && input.frame.jobId == job.jobId
    && input.frame.box == Sealed(job.key, ChunkPlain(job.jobId, n, DeltaOf(input)))
    && (job.maxTokens <= 0 || n < job.maxTokens)
    && (DeltaOf(input) == "" || input.sinkOk)
  }

  /** The texts of the chunks in order, without the empty ones. */
  function Texts(inputs: seq<Input>): seq<string> {
    if inputs == [] then []
    else
      var last := DeltaOf(inputs[|inputs| - 1]);
      Texts(inputs[..|inputs| - 1]) + (if last == "" then [] else [last])
  }

  lemma TokenKeepsRunning(job: Job, p: Progress, input: Input)
    requires p.status.Running?
    ensures OnInput(job, p, input).status.Running? <==> IsToken(job, p.expectedSeq, input)
    ensures IsToken(job, p.expectedSeq, input) ==>
      OnInput(job, p, input)
      == p.(expectedSeq := p.expectedSeq + 1,
            delivered := p.delivered + (if DeltaOf(input) == "" then [] else [DeltaOf(input)]))
  {
  }

  /** A job is still running exactly when every input was the chunk whose turn it was. All their
      texts have reached the caller, and nothing has been cancelled. */
  lemma {:induction false} RunningIffAllTokens(job: Job, inputs: seq<Input>)
    ensures Run(job, START, inputs).status.Running? <==> forall k | 0 <= k < |inputs| :: IsToken(job, k, inputs[k])
    ensures Run(job, START, inputs).status.Running? ==>
      Run(job, START, inputs) == Progress(|inputs|, Texts(inputs), [], Running)
  {
    if inputs == [] {
    } else {
      var before, last := inputs[..|inputs| - 1], inputs[|inputs| - 1];
      assert before + [last] == inputs;
      RunningIffAllTokens(job, before);
      RunAppend(job, START, before, last);
      var p := Run(job, START, before);
      if p.status.Running? {
        TokenKeepsRunning(job, p, last);
      }
    }
  }

  /** The cause of an end and the cancel frames sent, for a chunk that is not the next one. */
  ghost predicate ChunkEnds(job: Job, n: nat, frame: Frame, why: Status, cancels: seq<CancelReason>)
    requires frame.ChunkFrame?
  {
    match frame.box
    case Junk => why == Failed(CannotDecrypt) && cancels == [Superseded]
    case Sealed(key, plain) =>
      if key != job.key then why == Failed(CannotDecrypt) && cancels == [Superseded]
      else if plain.Garbled? then why == Failed(BadFrame) && cancels == []
      else if frame.jobId == job.jobId && plain.jobId == job.jobId && plain.seqNo == n
              && (job.maxTokens <= 0 || n < job.maxTokens) then
        why == Failed(SinkFailed) && cancels == [ClientDisconnect]
      else why == Failed(InvalidProviderResult) && cancels == [InvalidResult]
  }

  /** The same for any frame. Only a done frame of this job with a plausible prompt finishes it. */
  ghost predicate FrameEnds(job: Job, n: nat, frame: Frame, why: Status, cancels: seq<CancelReason>) {
    match frame
    case ChunkFrame(_, _) => ChunkEnds(job, n, frame, why, cancels)
    case DoneFrame(jobId, promptTokens, reason) =>
      && cancels == []
      && why == if jobId == job.jobId && 0 <= promptTokens <= job.maxPromptUnits
                then Finished(Usage(promptTokens, n, promptTokens + n), reason)
                else Failed(InvalidProviderResult)
    case ErrorFrame(code) => why == Failed(ProviderError(code)) && cancels == []
    case _ => why == Failed(BadFrame) && cancels == []
  }

  /** How a job ends that has taken `n` chunks and then reads `input`, which is not the next one. */
  ghost predicate InputEnds(job: Job, n: nat, input: Input, why: Status, cancels: seq<CancelReason>) {
    match input
    case ClientGone => why == Failed(ClientDisconnected) && cancels == [ClientDisconnect]
    case DeadlineHit => why == Failed(DeadlinePassed) && cancels == [DeadlineReason]
    case ChannelClosed => why == Failed(ProviderGone) && cancels == []
    case Arrived(frame, _) => FrameEnds(job, n, frame, why, cancels)
  }

  lemma ChunkEnding(job: Job, p: Progress, frame: Frame, sinkOk: bool)
    requires p.status.Running? && p.cancels == [] && frame.ChunkFrame?
    requires !IsToken(job, p.expectedSeq, Arrived(frame, sinkOk))
    ensures var q := OnInput(job, p, Arrived(frame, sinkOk));
      ChunkEnds(job, p.expectedSeq, frame, q.status, q.cancels)
  {
  }

  lemma InputEnding(job: Job, p: Progress, input: Input)
    requires p.status.Running? && p.cancels == [] && !IsToken(job, p.expectedSeq, input)
    ensures var q := OnInput(job, p, input); InputEnds(job, p.expectedSeq, input, q.status, q.cancels)
  {
    if input.Arrived? && input.frame.ChunkFrame? {
      ChunkEnding(job, p, input.frame, input.sinkOk);
    }
  }

  lemma EndDelivers(job: Job, p: Progress, input: Input)
    requires p.status.Running? && !IsToken(job, p.expectedSeq, input)
    ensures var q := OnInput(job, p, input);
      q.delivered == if q.status == Failed(SinkFailed) then p.delivered + [DeltaOf(input)] else p.delivered
  {
  }

  /** The first input that is not the next chunk ends the job for its own cause, with its own cancel
      frame or none. The caller has every text before it, and the one it refused if it refused one.
      Whatever comes later changes nothing. */
  lemma FirstOtherEndsJob(job: Job, inputs: seq<Input>, k: nat)
    requires k < |inputs| && !IsToken(job, k, inputs[k])
    requires forall i | 0 <= i < k :: IsToken(job, i, inputs[i])
    ensures var end := Run(job, START, inputs);
      && !end.status.Running? && InputEnds(job, k, inputs[k], end.status, end.cancels)
      && end.delivered == Texts(inputs[..k]) + (if end.status == Failed(SinkFailed) then [DeltaOf(inputs[k])] else [])
  {
    var tokens := inputs[..k];
    assert forall i | 0 <= i < k :: tokens[i] == inputs[i];
    RunningIffAllTokens(job, tokens);
    RunAppend(job, START, tokens, inputs[k]);
    assert inputs[..k + 1] == tokens + [inputs[k]];
    var p := Run(job, START, tokens);
    TokenKeepsRunning(job, p, inputs[k]);
    InputEnding(job, p, inputs[k]);
    EndDelivers(job, p, inputs[k]);
    RunStays(job, inputs, k + 1);
  }
}
