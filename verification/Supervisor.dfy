/**
 The serialized request/response transport to the Core child process (`supervisor.py`), against a peer
 that may send any bytes, stop answering, or die at any moment.  Each method runs under the lock.
 */
module Supervisor {
  import opened Text
  import opened JsonValues
  import opened Framing

  /** The exceptions that leave a call, by the class the source's handlers tell apart. */
  datatype Fault =
    | SpawnFailed | TimedOutWaiting | ProcessClosed | InvalidResponse | StreamFailed | IdMismatch
    | UnsupportedVersion | RemoteFailure(code: string)
    | ValueFailure | KeyFailure | TypeFailure | AssertionFailure | SystemFailure | Busy

  datatype Reply = Reply(result: Json) | Failed(failure: Fault)

  /** `CoreResponseEnvelope.from_json` of a payload: an envelope, or the exception it raises. */
  datatype Decoded =
    | Envelope(id: string, body: Body)
    | BadValue | BadKey | BadType

  datatype Body = Answered(result: Json) | Rejected(code: string) | RejectedWithoutDetail

  /**
   What one call meets: its operation with payload, the id it draws, whether the pipe accepts the write,
   when deadlines pass, and, should a process be spawned, whether that works and the bytes it will ever send.
   */
  datatype Env = Env(
    operation: string,
    freshId: string,
    writeFails: bool,
    deadlines: nat -> bool,
    spawnWorks: bool,
    spawnOutput: seq<Byte>,
    handshakeId: string,
    handshakeWriteFails: bool,
    handshakeDeadlines: nat -> bool)

  /** One completed exchange: the id and the request written, and the response frame read after it. */
  datatype Exchange = Exchange(id: string, request: seq<Byte>, payload: seq<Byte>)

  /** A request as it was written, with the number of response bytes taken up to then. */
  datatype Sent = Sent(request: seq<Byte>, at: nat)

  ghost function Payloads(exchanges: seq<Exchange>): (ps: seq<seq<Byte>>)
    ensures |ps| == |exchanges|
    ensures forall i :: 0 <= i < |ps| ==> ps[i] == exchanges[i].payload
  {
    seq(|exchanges|, i requires 0 <= i < |exchanges| => exchanges[i].payload)
  }

  ghost function Requests(exchanges: seq<Exchange>): (rs: seq<seq<Byte>>)
    ensures |rs| == |exchanges|
    ensures forall i :: 0 <= i < |rs| ==> rs[i] == exchanges[i].request
  {
    seq(|exchanges|, i requires 0 <= i < |exchanges| => exchanges[i].request)
  }

  /**
   The exchanges account for every byte in both directions, and each request was written when exactly
   the responses to the earlier ones had been taken.
   */
  ghost predicate Accounts(exchanges: seq<Exchange>, sent: seq<Sent>, written: seq<Byte>, taken: seq<Byte>) {
    && Sendable(Payloads(exchanges)) && taken == Frames(Payloads(exchanges))
    && Sendable(Requests(exchanges)) && written == Frames(Requests(exchanges))
    && |sent| == |exchanges|
    && forall k :: 0 <= k < |sent| ==> WrittenBefore(exchanges, sent, k)
  }

  ghost predicate WrittenBefore(exchanges: seq<Exchange>, sent: seq<Sent>, k: nat)
    requires k < |sent| == |exchanges| && Sendable(Payloads(exchanges))
  {
    sent[k].request == exchanges[k].request && sent[k].at == |Frames(Payloads(exchanges[..k]))|
  }

  lemma NothingExchanged()
    ensures Accounts([], [], [], [])
  {
    assert Payloads([]) == [] && Requests([]) == [];
  }

  lemma AccountLength(exchanges: seq<Exchange>, sent: seq<Sent>, written: seq<Byte>, taken: seq<Byte>)
    requires Accounts(exchanges, sent, written, taken)
    ensures |sent| == |exchanges|
  {
  }

  /** A request written in sync and one whole frame read after it extend the account. */
  lemma AccountGrows(
    exchanges: seq<Exchange>, sent: seq<Sent>, written: seq<Byte>, taken: seq<Byte>, e: Exchange)
    requires Accounts(exchanges, sent, written, taken)
    requires |e.request| <= MAX_FRAME_BYTES && |e.payload| <= MAX_FRAME_BYTES
    ensures var log := sent + [Sent(e.request, |taken|)];
      Accounts(exchanges + [e], log, written + Frame(e.request), taken + Frame(e.payload))
  {
    hide Frame;
    var more := exchanges + [e];
    assert Payloads(more) == Payloads(exchanges) + [e.payload];
    assert Requests(more) == Requests(exchanges) + [e.request];
    FramesAppend(Payloads(exchanges), e.payload);
    FramesAppend(Requests(exchanges), e.request);
    var log := sent + [Sent(e.request, |taken|)];
    forall k | 0 <= k < |log| ensures WrittenBefore(more, log, k) {
      if k < |sent| {
        assert WrittenBefore(exchanges, sent, k);
        assert more[..k] == exchanges[..k];
      } else {
        assert more[..k] == exchanges;
      }
    }
  }

  /** One incarnation of the child process. */
  class CoreProcess {
    const stdin: Stream
    const stdout: Stream
    var running: bool
    /** A request was written and its response frame has not been read completely. */
    ghost var pending: bool
    ghost var sent: seq<Sent>
    ghost var exchanges: seq<Exchange>

    constructor (output: seq<Byte>)
      ensures fresh(stdin) && fresh(stdout) && stdin != stdout && running && InSync() && exchanges == []
      ensures stdout.ahead == output
    {
      stdin := new Stream([]);
      stdout := new Stream(output);
      running, pending, sent, exchanges := true, false, [], [];
      new;
      NothingExchanged();
    }

    /** Nothing is under way, and the exchanges account for everything written and taken. */
    ghost predicate InSync()
      reads this, stdin, stdout
    {
      stdin != stdout && !pending && Accounts(exchanges, sent, stdin.ahead, stdout.taken)
    }

    /** `poll()`: the process may have died since it was last looked at, and never comes back. */
    method Poll(died: bool) returns (alive: bool)
      modifies this`running
      ensures alive == running == (old(running) && !died)
    {
      running := running && !died;
      alive := running;
    }

    /** `write_frame` to stdin; the log keeps how far the responses had been read. */
    method Send(request: seq<Byte>, fails: bool) returns (ok: bool)
      requires stdin != stdout && |request| <= MAX_FRAME_BYTES
      modifies this`pending, this`sent, stdin
      ensures ok == !fails && pending
      ensures ok ==>
                && sent == old(sent) + [Sent(request, |stdout.taken|)]
                && stdin.ahead == old(stdin.ahead) + Frame(request)
    {
      pending := true;
      if fails {
        return false;
      }
      ok := WriteFrame(stdin, request);
      sent := sent + [Sent(request, |stdout.taken|)];
    }
  }

  class CoreSupervisor {
    /** The UTF-8 bytes of the request envelope for an id and an operation with its payload. */
    const encode: (string, string) -> seq<Byte>
    const decode: seq<Byte> -> Decoded
    /** `int(result.get("protocol_version", 0))`, or None where that raises. */
    const versionOf: Json -> Option<int>
    const supportedVersion: int
    var process: CoreProcess?
    var handshake: Option<Json>

    constructor (encode: (string, string) -> seq<Byte>, decode: seq<Byte> -> Decoded, versionOf: Json -> Option<int>,
                 supportedVersion: int)
      ensures this.encode == encode && this.decode == decode && this.versionOf == versionOf
      ensures this.supportedVersion == supportedVersion && process == null && Valid()
    {
      this.encode, this.decode, this.versionOf, this.supportedVersion := encode, decode, versionOf, supportedVersion;
      process, handshake := null, None;
    }

    ghost function Footprint(): set<object>
      reads this, process
    {
      if process == null then {this} else {this, process, process.stdin, process.stdout}
    }

    /** The first exchange of the incarnation was a handshake at the supported version. */
    ghost predicate Handshaken(p: CoreProcess)
      reads this, p
    {
      && |p.exchanges| > 0
      && var answer := decode(p.exchanges[0].payload);
      && answer.Envelope?
      && answer.id == p.exchanges[0].id
      && p.exchanges[0].request == encode(answer.id, "handshake")
      && answer.body.Answered?
      && versionOf(answer.body.result) == Some(supportedVersion)
    }

    /** Whenever the lock is free: a running process has completed its handshake and is in sync. */
    ghost predicate Valid()
      reads this, process, if process == null then {} else {process.stdin, process.stdout}
    {
      process != null && process.running ==> Handshaken(process) && process.InSync()
    }

    /**
     `result` came from a frame carrying `id` that was read from this process after the request for
     `operation` with that id had been written to it.
     */
    ghost predicate AnsweredBy(p: CoreProcess, id: string, operation: string, result: Json)
      reads this, p, p.stdout
    {
      && |p.sent| == |p.exchanges| > 0
      && var last := |p.exchanges| - 1;
      && p.exchanges[last].id == id
      && p.exchanges[last].request == encode(id, operation) == p.sent[last].request
      && decode(p.exchanges[last].payload) == Envelope(id, Answered(result))
      && |p.exchanges[last].payload| <= MAX_FRAME_BYTES
      && p.sent[last].at + |Frame(p.exchanges[last].payload)| == |p.stdout.taken|
    }

    /** What an exchange yields with these bytes ahead when no deadline passes. */
    ghost function Answer(ahead: seq<Byte>, id: string, operation: string, writeFails: bool): Reply {
      if |encode(id, operation)| > MAX_FRAME_BYTES then Failed(ValueFailure)
      else if writeFails then Failed(SystemFailure)
      else match Parse(ahead)
        case Truncated => Failed(ProcessClosed)
        case TooLarge(_) => Failed(ValueFailure)
        case Payload(payload, _) => Unpacked(payload, id)
    }

    /** `CoreResponseEnvelope.from_json` and the checks on what it gives. */
    function Unpacked(payload: seq<Byte>, id: string): Reply {
      match decode(payload)
      case BadValue => Failed(ValueFailure)
      case BadKey => Failed(KeyFailure)
      case BadType => Failed(TypeFailure)
      case Envelope(answerId, body) =>
        if answerId != id then Failed(IdMismatch)
        else match body
          case Answered(result) => Reply(result)
          case Rejected(code) => Failed(RemoteFailure(code))
          case RejectedWithoutDetail => Failed(AssertionFailure)
    }

    /** The bytes behind the first frame. */
    static ghost function Behind(ahead: seq<Byte>): seq<Byte> {
      match Parse(ahead)
      case Payload(_, rest) => rest
      case _ => []
    }

    /** The failures after which a whole frame has been read and the stream is in sync again. */
    static predicate FrameWasRead(r: Reply) {
      r.Reply? || r.failure in {KeyFailure, TypeFailure, AssertionFailure, IdMismatch} || r.failure.RemoteFailure?
    }

    /** No deadline passes, so the call cannot time out. */
    static ghost predicate InTime(deadlines: nat -> bool) {
      forall i: nat :: !deadlines(i)
    }

    /** `_terminate_locked`. */
    method Terminate()
      modifies this`process, if process == null then {} else {process}
      ensures process == null && handshake == old(handshake)
      ensures old(process) != null ==> !old(process).running
    {
      if process != null {
        process.running := false;
      }
      process := null;
    }

    /**
     `_exchange_locked` on a process in sync.  It yields what the bytes ahead say unless a deadline passes,
     and the process is in sync again whenever a whole response frame was read.
     */
    method ExchangeOnce(p: CoreProcess, id: string, operation: string, writeFails: bool, deadlines: nat -> bool)
      returns (r: Reply)
      requires p.InSync()
      modifies p`pending, p`sent, p`exchanges, p.stdin, p.stdout
      ensures r == Failed(TimedOutWaiting) || r == Answer(old(p.stdout.ahead), id, operation, writeFails)
      ensures InTime(deadlines) ==> r == Answer(old(p.stdout.ahead), id, operation, writeFails)
      ensures r.Reply? ==> AnsweredBy(p, id, operation, r.result)
      ensures FrameWasRead(r) ==>
                && p.InSync() && |p.exchanges| == |old(p.exchanges)| + 1
                && p.exchanges[..|old(p.exchanges)|] == old(p.exchanges)
                && p.exchanges[|old(p.exchanges)|].request == encode(id, operation)
                && p.exchanges[|old(p.exchanges)|].id == id
                && p.stdout.ahead == Behind(old(p.stdout.ahead))
    {
      hide Frames, Sendable, Accounts;
      var bytes := encode(id, operation);
      if |bytes| > MAX_FRAME_BYTES {
        return Failed(ValueFailure);
      }
      var ok := p.Send(bytes, writeFails);
      if !ok {
        return Failed(SystemFailure);
      }
      var frame := ReadFrameBefore(p.stdout, deadlines);
      if frame.Failure? {
        return Failed(match frame.error
                      case TimedOut => TimedOutWaiting
                      case StreamClosed => ProcessClosed
                      case _ => ValueFailure);
      }
      AccountLength(old(p.exchanges), old(p.sent), old(p.stdin.ahead), old(p.stdout.taken));
      AccountGrows(
        old(p.exchanges), old(p.sent), old(p.stdin.ahead), old(p.stdout.taken), Exchange(id, bytes, frame.value));
      p.exchanges := p.exchanges + [Exchange(id, bytes, frame.value)];
      p.pending := false;
      r := Unpacked(frame.value, id);
    }

    /** What starting a fresh process yields when no handshake deadline passes. */
    ghost function StartAnswer(env: Env): Option<Fault> {
      if !env.spawnWorks then Some(SpawnFailed)
      else match Answer(env.spawnOutput, env.handshakeId, "handshake", env.handshakeWriteFails)
        case Failed(failure) => Some(failure)
        case Reply(result) =>
          if versionOf(result) == Some(supportedVersion) then None
          else Some(if versionOf(result).None? then ValueFailure else UnsupportedVersion)
    }

    /** `start`: reuse a running process, or spawn one and shake hands; any failure terminates it. */
    method Start(env: Env, died: bool) returns (started: Option<Fault>)
      requires Valid()
      modifies Footprint()
      ensures Valid() && fresh(Footprint() - old(Footprint()))
      ensures old(Reusable(died)) ==> started.None? && process == old(process) && SameExchanges()
      ensures !old(Reusable(died)) ==> started == Some(TimedOutWaiting) || started == StartAnswer(env)
      ensures !old(Reusable(died)) && InTime(env.handshakeDeadlines) ==> started == StartAnswer(env)
      ensures started.None? ==> process != null && process.running && Handshaken(process) && process.InSync()
      ensures started.None? && !old(Reusable(died)) ==>
                fresh(process) && |process.exchanges| == 1 && process.stdout.ahead == Behind(env.spawnOutput)
      ensures started.Some? ==>
                process == null || (started.value == SpawnFailed && process == old(process) && !process.running)
      ensures old(process) != null && !old(Reusable(died)) ==> !old(process).running
    {
      hide StartAnswer, Answer, Accounts;
      if process != null {
        var alive := process.Poll(died);
        if alive {
          return None;
        }
      }
      started := SpawnAndShake(env);
    }

    /** A fresh process and its handshake, when none is running. */
    method SpawnAndShake(env: Env) returns (started: Option<Fault>)
      requires process != null ==> !process.running
      modifies this
      ensures started == Some(TimedOutWaiting) || started == StartAnswer(env)
      ensures InTime(env.handshakeDeadlines) ==> started == StartAnswer(env)
      ensures started.None? ==>
                && process != null && process.running && Handshaken(process) && process.InSync()
                && fresh(process) && fresh(process.stdin) && fresh(process.stdout) && |process.exchanges| == 1
                && process.stdout.ahead == Behind(env.spawnOutput)
      ensures started.Some? ==> process == null || (started.value == SpawnFailed && process == old(process))
    {
      hide Answer, Accounts;
      if !env.spawnWorks {
        return Some(SpawnFailed);
      }
      var p := new CoreProcess(env.spawnOutput);
      process := p;
      var r := ExchangeOnce(p, env.handshakeId, "handshake", env.handshakeWriteFails, env.handshakeDeadlines);
      if r.Failed? {
        Terminate();
        return Some(r.failure);
      }
      var version := versionOf(r.result);
      if version != Some(supportedVersion) {
        Terminate();
        return Some(if version.None? then ValueFailure else UnsupportedVersion);
      }
      handshake := Some(r.result);
      started := None;
    }

    lemma NeverBusy(env: Env)
      ensures StartAnswer(env) != Some(Busy)
    {
    }

    /** A process that runs and is still found running. */
    ghost predicate Reusable(died: bool)
      reads this, process
    {
      process != null && process.running && !died
    }

    twostate predicate SameExchanges()
      reads this, process, if process == null then {} else {process.stdin, process.stdout}
    {
      process != null && process == old(process)
      && process.exchanges == old(process.exchanges) && process.stdout.ahead == old(process.stdout.ahead)
    }

    /** The reply that a request calls for with these bytes ahead of it. */
    ghost predicate Says(ahead: seq<Byte>, id: string, operation: string, writeFails: bool, r: Reply) {
      if |encode(id, operation)| > MAX_FRAME_BYTES then r == Failed(InvalidResponse)
      else if writeFails then r == Failed(StreamFailed)
      else match Parse(ahead)
        case Truncated => r == Failed(ProcessClosed)
        case TooLarge(_) => r == Failed(InvalidResponse)
        case Payload(payload, _) =>
          match decode(payload)
          case BadValue => r == Failed(InvalidResponse)
          case BadKey => r == Failed(InvalidResponse)
          case BadType => r == Failed(InvalidResponse)
          case Envelope(other, body) =>
            && (other != id ==> r == Failed(IdMismatch))
            && (other == id && body.Answered? ==> r == Reply(body.result))
            && (other == id && body.Rejected? ==> r == Failed(RemoteFailure(body.code)))
            && (other == id && body.RejectedWithoutDetail? ==> r == Failed(AssertionFailure))
    }

    /** What a request means for its caller and for the process. */
    twostate predicate Requested(requestId: Option<string>, env: Env, died: bool, r: Reply)
      reads this, process, if process == null then {} else {process.stdin, process.stdout}
    {
      var id := RequestId(requestId, env);
      var reused := old(Reusable(died));
      // a result answers this call's own request in the current incarnation
      && (r.Reply? ==> process != null && process.running && AnsweredBy(process, id, env.operation, r.result))
      // a running process that answers in time is listened to, whatever it says
      && (reused ==>
            var ahead := old(process.stdout.ahead);
            && (r == Failed(TimedOutWaiting) || Says(ahead, id, env.operation, env.writeFails, r))
            && (InTime(env.deadlines) ==> Says(ahead, id, env.operation, env.writeFails, r)))
      // a result or a structured remote error leaves it usable and in sync, one exchange further
      && (reused && (r.Reply? || r.failure.RemoteFailure? || r.failure == AssertionFailure) ==>
            process == old(process) && process.running && process.InSync()
            && |process.exchanges| == |old(process.exchanges)| + 1)
      // a timeout, a closed or failing stream, and an answer that is no answer to this request end it
      && (reused && r.Failed?
            && r.failure in {TimedOutWaiting, ProcessClosed, InvalidResponse, StreamFailed, IdMismatch} ==>
            process == null)
      // without one to reuse a fresh one is started; if that fails the caller is told why, and none is left
      && (!reused && StartAnswer(env).Some? ==>
            && (r == Failed(TimedOutWaiting) || r == Failed(StartAnswer(env).value))
            && (InTime(env.handshakeDeadlines) ==> r == Failed(StartAnswer(env).value))
            && (process == null || (r == Failed(SpawnFailed) && !process.running)))
      // after its handshake it is listened to in the same way
      && (!reused && StartAnswer(env).None? ==>
            var ahead := Behind(env.spawnOutput);
            && (r == Failed(TimedOutWaiting) || Says(ahead, id, env.operation, env.writeFails, r))
            && (InTime(env.handshakeDeadlines) && InTime(env.deadlines) ==>
                  Says(ahead, id, env.operation, env.writeFails, r)))
      && (!reused && StartAnswer(env).None?
            && (r.Reply? || r.failure.RemoteFailure? || r.failure == AssertionFailure) ==>
            process != null && process.running && process.InSync() && |process.exchanges| == 2)
      && (!reused && StartAnswer(env).None? && r.Failed?
            && r.failure in {TimedOutWaiting, ProcessClosed, InvalidResponse, StreamFailed, IdMismatch} ==>
            process == null)
    }

    /** `request`. */
    method Request(requestId: Option<string>, env: Env, died: bool) returns (r: Reply)
      requires Valid()
      modifies Footprint()
      ensures Valid() && fresh(Footprint() - old(Footprint()))
      ensures Requested(requestId, env, died, r)
      ensures old(Reusable(died)) && process == null ==> !old(process).running
      ensures !old(Reusable(died)) && process != null && process.running ==> fresh(process)
      ensures r != Failed(Busy)
    {
      hide Accounts, StartAnswer, Answer, Handshaken, Behind;
      NeverBusy(env);
      var started := Start(env, died);
      if started.Some? {
        return Failed(started.value);
      }
      r := Forward(RequestId(requestId, env), env);
    }

    /** The exchange of `request` on a started process, with the handling of its failures. */
    method Forward(id: string, env: Env) returns (r: Reply)
      requires process != null && process.running && Handshaken(process) && process.InSync()
      modifies Footprint()
      ensures Valid() && fresh(Footprint() - old(Footprint()))
      ensures r == Failed(TimedOutWaiting) || Says(old(process.stdout.ahead), id, env.operation, env.writeFails, r)
      ensures InTime(env.deadlines) ==> Says(old(process.stdout.ahead), id, env.operation, env.writeFails, r)
      ensures r.Reply? ==> process != null && AnsweredBy(process, id, env.operation, r.result)
      ensures r.Reply? || r.failure.RemoteFailure? || r.failure == AssertionFailure ==>
                && process == old(process) && process.running && process.InSync()
                && |process.exchanges| == |old(process.exchanges)| + 1
      ensures r.Failed? && r.failure in {TimedOutWaiting, ProcessClosed, InvalidResponse, StreamFailed, IdMismatch} ==>
                process == null && !old(process).running
      ensures r.Reply? || process == null || r.failure.RemoteFailure? || r.failure == AssertionFailure
      ensures r != Failed(Busy)
    {
      hide Accounts;
      r := ExchangeOnce(process, id, env.operation, env.writeFails, env.deadlines);
      if r.Failed? && !r.failure.RemoteFailure? && r.failure != AssertionFailure {
        Terminate();
        if r.failure in {KeyFailure, TypeFailure, ValueFailure} {
          r := Failed(InvalidResponse);
        } else if r.failure == SystemFailure {
          r := Failed(StreamFailed);
        }
      }
    }

    function RequestId(requestId: Option<string>, env: Env): string {
      if requestId.Some? && requestId.value != "" then requestId.value else env.freshId
    }

    /** `try_request`: a busy channel changes nothing, a free one is a request. */
    method TryRequest(requestId: Option<string>, env: Env, died: bool, lockFree: bool) returns (r: Reply)
      requires Valid()
      modifies Footprint()
      ensures Valid() && fresh(Footprint() - old(Footprint()))
      ensures r == Failed(Busy) <==> !lockFree
      ensures !lockFree ==> Untouched()
      ensures lockFree ==> Requested(requestId, env, died, r)
      ensures lockFree && old(Reusable(died)) && process == null ==> !old(process).running
      ensures lockFree && !old(Reusable(died)) && process != null && process.running ==> fresh(process)
    {
      hide Accounts;
      if !lockFree {
        return Failed(Busy);
      }
      r := Request(requestId, env, died);
    }

    /** Neither the supervisor nor its process nor the pipes changed. */
    twostate predicate Untouched()
      reads this, process, if process == null then {} else {process.stdin, process.stdout}
    {
      unchanged(this) && (process != null ==>
            unchanged(process) && unchanged(process.stdin) && unchanged(process.stdout))
    }

    /**
     The shutdown answers that `close` does not expect: a whole frame that lacks a key, holds a value of the
     wrong type, or is an error without detail.  Decoding them raises errors its handler does not name.
     */
    ghost predicate Unexpected(ahead: seq<Byte>, env: Env) {
      var frame := Parse(ahead);
      && |encode(env.freshId, "shutdown")| <= MAX_FRAME_BYTES && !env.writeFails && frame.Payload?
      && decode(frame.payload) in {BadKey, BadType, Envelope(env.freshId, RejectedWithoutDetail)}
    }

    lemma UnexpectedAnswer(ahead: seq<Byte>, env: Env)
      ensures var answer := Answer(ahead, env.freshId, "shutdown", env.writeFails);
        Unexpected(ahead, env) <==>
        answer.Failed? && answer.failure in {KeyFailure, TypeFailure, AssertionFailure}
    {
    }

    /**
     `close`.  A running process is terminated unless its answer to the shutdown makes decoding raise an
     error that the handler does not name; then it is left running, in sync.
     */
    method Close(env: Env, died: bool) returns (failure: Option<Fault>)
      requires Valid()
      modifies Footprint()
      ensures Valid() && fresh(Footprint() - old(Footprint()))
      ensures failure.Some? ==>
                && old(Reusable(died) && Unexpected(process.stdout.ahead, env))
                && failure.value in {KeyFailure, TypeFailure, AssertionFailure}
                && process == old(process) && process.running && process.InSync()
      ensures InTime(env.deadlines) && old(Reusable(died) && Unexpected(process.stdout.ahead, env)) ==> failure.Some?
      ensures failure.None? ==> process == null && (old(process) != null ==> !old(process).running)
    {
      hide Accounts, Answer, Unexpected;
      if process != null {
        var alive := process.Poll(died);
        if alive {
          UnexpectedAnswer(process.stdout.ahead, env);
          var r := ExchangeOnce(process, env.freshId, "shutdown", env.writeFails, env.deadlines);
          if r.Failed? && r.failure in {KeyFailure, TypeFailure, AssertionFailure} {
            return Some(r.failure);
          }
        }
      }
      Terminate();
      failure := None;
    }

    /** `restart`. */
    method Restart(env: Env) returns (started: Option<Fault>)
      requires Valid()
      modifies Footprint()
      ensures Valid() && fresh(Footprint() - old(Footprint()))
      ensures old(process) != null ==> !old(process).running
      ensures started == Some(TimedOutWaiting) || started == StartAnswer(env)
      ensures InTime(env.handshakeDeadlines) ==> started == StartAnswer(env)
      ensures started.None? ==> process != null && process.running && fresh(process)
      ensures started.Some? ==> process == null
    {
      hide StartAnswer, Accounts, Handshaken;
      Terminate();
      started := Start(env, false);
    }
  
    /** Any number of calls, in any order, against any peer: the channel invariant survives the whole run. */
    method Serve(calls: seq<Call>)
      requires Valid()
      modifies Footprint()
      ensures Valid() && fresh(Footprint() - old(Footprint()))
    {
      hide Accounts, Handshaken, StartAnswer, Requested, Answer;
      ghost var before := Footprint();
      for k := 0 to |calls|
        invariant Valid()
        invariant fresh(Footprint() - before)
        modifies Footprint()
      {
        match calls[k] {
          case Start(env, died) => var _ := Start(env, died);
          case Request(id, env, died) => var _ := Request(id, env, died);
          case TryRequest(id, env, died, lockFree) => var _ := TryRequest(id, env, died, lockFree);
          case Close(env, died) => var _ := Close(env, died);
          case Restart(env) => var _ := Restart(env);
        }
      }
    }
  }

  datatype Call =
    | Start(env: Env, died: bool)
    | Request(requestId: Option<string>, env: Env, died: bool)
    | TryRequest(requestId: Option<string>, env: Env, died: bool, lockFree: bool)
    | Close(env: Env, died: bool)
    | Restart(env: Env)
}
