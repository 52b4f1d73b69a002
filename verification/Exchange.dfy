/** A detection request: the host and the guest hand messages to each other through one memory, twice. */
module Exchange {
  import opened Wrappers
  import opened MachineInts
  import opened HostMemory

  /** A message type's wire format, known only by its law. */
  datatype Codec<!M> = Codec(encode: M -> seq<byte>, decode: seq<byte> -> Option<M>)

  ghost predicate Lawful<M(!new)>(c: Codec<M>) {
    forall m :: c.decode(c.encode(m)) == Some(m)
  }

  datatype MemorySlice = MemorySlice(start: int, len: int)
  datatype HostCall = HostCall(name: string, cont: Option<string>, parameters: Option<MemorySlice>)
  datatype Invocation =
    | Finished(ptr: Option<MemorySlice>)
    | Calling(call: HostCall)
    | Erred(message: string, details: Option<MemorySlice>)
  datatype InvokeResult = InvokeResult(result: Option<Invocation>)

  /** The parts of a deployed application: the formats of its messages, the guest's two computations and
      the inference that the host runs for it. */
  datatype Application<!Req, !Par, !Rep, !Out> = Application(
    request: Codec<Req>, parameters: Codec<Par>, reply: Codec<Rep>, output: Codec<Out>,
    invoke: Codec<InvokeResult>,
    prepare: Req -> Result<Par, string>,
    infer: Par -> Result<Rep, string>,
    finish: Rep -> Result<Out, string>)

  ghost predicate LawfulFormats<Req(!new), Par(!new), Rep(!new), Out(!new)>(
    app: Application<Req, Par, Rep, Out>)
  {
    Lawful(app.request) && Lawful(app.parameters) && Lawful(app.reply) && Lawful(app.output)
    && Lawful(app.invoke)
  }

  datatype DetectionError =
    | MemoryFailed | Undecodable | GuestFailed(message: string) | InferenceFailed(message: string)
    | NoSuchExport | IncompleteCall | Panicked

  // ----- the guest -----

  /** `slice_to_i64` and `wrap_memslice` of a region. */
  function WrapSlice(p: WasmPointer): Option<MemorySlice> { Some(MemorySlice(p.start, p.len)) }

  /** The guest's bump allocator. `last` starts one behind the argument, so a byte stays unused. */
  class GuestMemory {
    const memory: array<byte>
    const head: int
    var last: int

    /** `setup`: everything up to the end of the argument counts as used. */
    constructor (memory: array<byte>, ptr: int, len: int)
      ensures this.memory == memory && head == ptr && last == ptr + len
    {
      this.memory := memory;
      head, last := ptr, ptr + len;
    }

    /** `get_whole`: the bytes from the head, as many as are used. */
    method GetWhole() returns (bytes: seq<byte>)
      requires 0 <= head <= last <= memory.Length
      ensures bytes == Region(memory[..], WasmPointer(head, last - head))
    {
      bytes := memory[head..last];
    }

    method WriteBytes(data: seq<byte>) returns (p: WasmPointer)
      requires 0 <= last && last + 1 + |data| <= memory.Length
      modifies this, memory
      ensures p == WasmPointer(old(last) + 1, |data|) && last == old(last) + |data|
      ensures memory[..] == Splice(old(memory[..]), p.start, data)
    {
      var start := last + 1;
      forall i | 0 <= i < |data| {
        memory[start + i] := data[i];
      }
      last := last + |data|;
      assert memory[..] == Splice(old(memory[..]), start, data);
      p := WasmPointer(start, |data|);
    }
  }

  /** What a guest leaves behind: its payload one byte after the argument, and right behind it the result
      message that points to the payload. */
  ghost predicate LeftBehind(memory: seq<byte>, arg: WasmPointer, payload: seq<byte>,
                             message: seq<byte>, v: int)
  {
    var slice, result := PayloadSlice(arg, payload), ResultSlice(arg, payload, message);
    && |memory| <= I32_MAX
    && InBounds(memory, slice) && Region(memory, slice) == payload
    && InBounds(memory, result) && Region(memory, result) == message
    && v == Pack(result.start, result.len)
  }

  function PayloadSlice(arg: WasmPointer, payload: seq<byte>): WasmPointer {
    WasmPointer(arg.start + arg.len + 1, |payload|)
  }

  function ResultSlice(arg: WasmPointer, payload: seq<byte>, message: seq<byte>): WasmPointer {
    WasmPointer(arg.start + arg.len + 1 + |payload|, |message|)
  }

  /** The `exit_*` functions: write the payload, then the message about it, and return the message's
      packed region. */
  method Exit(memory: GuestMemory, payload: seq<byte>, invoke: Codec<InvokeResult>,
              about: WasmPointer -> Invocation) returns (v: int)
    requires memory.memory.Length <= I32_MAX && 0 <= memory.head <= memory.last
    requires var arg := WasmPointer(memory.head, memory.last - memory.head);
             var message := invoke.encode(InvokeResult(Some(about(PayloadSlice(arg, payload)))));
             InBounds(memory.memory[..], ResultSlice(arg, payload, message))
    modifies memory, memory.memory
    ensures var arg := WasmPointer(memory.head, old(memory.last) - memory.head);
            var message := invoke.encode(InvokeResult(Some(about(PayloadSlice(arg, payload)))));
            LeftBehind(memory.memory[..], arg, payload, message, v)
  {
    var slice := memory.WriteBytes(payload);
    ghost var between := memory.memory[..];
    SpliceHit(old(memory.memory[..]), slice.start, payload);
    var message := invoke.encode(InvokeResult(Some(about(slice))));
    var out := memory.WriteBytes(message);
    SpliceHit(between, out.start, message);
    SpliceMiss(between, out.start, message, slice);
    v := Pack(out.start, out.len);
  }

  /** What a guest's entry point sends back for its argument: a payload and a message about it. */
  datatype Sent = Sent(payload: seq<byte>, about: WasmPointer -> Invocation)

  function ErrorSent(message: string): Sent {
    Sent([], (p: WasmPointer) => Erred(message, WrapSlice(p)))
  }

  /** `main`: decode the request, prepare, ask the host for the inference. */
  function MainSends<Req, Par, Rep, Out>(app: Application<Req, Par, Rep, Out>, arg: seq<byte>): Sent {
    match app.request.decode(arg)
    case None => ErrorSent("ERR: Failed to decode request")
    case Some(request) =>
      match app.prepare(request)
      case Failure(e) => ErrorSent(e)
      case Success(params) =>
        Sent(app.parameters.encode(params),
             (p: WasmPointer) => Calling(HostCall("infer", Some("get_probability"), WrapSlice(p))))
  }

  /** `get_probability`: decode the reply, finish. */
  function ContinueSends<Req, Par, Rep, Out>(app: Application<Req, Par, Rep, Out>, arg: seq<byte>): Sent {
    match app.reply.decode(arg)
    case None => ErrorSent("Failed to parse InferReply")
    case Some(reply) =>
      match app.finish(reply)
      case Failure(e) => ErrorSent(e)
      case Success(out) =>
        Sent(app.output.encode(out), (p: WasmPointer) => Finished(WrapSlice(p)))
  }

  function MessageOf(invoke: Codec<InvokeResult>, sent: Sent, arg: WasmPointer): seq<byte> {
    invoke.encode(InvokeResult(Some(sent.about(PayloadSlice(arg, sent.payload)))))
  }

  /** The function a module exports under a name. */
  datatype Export = Main | GetProbability

  function ExportNamed(name: string): Option<Export> {
    if name == "main" then Some(Main) else if name == "get_probability" then Some(GetProbability) else None
  }

  function Sends<Req, Par, Rep, Out>(app: Application<Req, Par, Rep, Out>, f: Export, arg: seq<byte>): Sent {
    match f
    case Main => MainSends(app, arg)
    case GetProbability => ContinueSends(app, arg)
  }

  /** Memory enough for what the guest leaves behind. */
  ghost predicate HasRoom(invoke: Codec<InvokeResult>, sent: Sent, arg: WasmPointer, size: int) {
    var out := ResultSlice(arg, sent.payload, MessageOf(invoke, sent, arg));
    out.start + out.len <= size
  }

  /** A call of an exported function: it runs on whatever lies in its argument region. */
  method RunGuest<Req, Par, Rep, Out>(app: Application<Req, Par, Rep, Out>, f: Export,
                                      shared: array<byte>, arg: WasmPointer, ghost sent: Sent)
    returns (v: int)
    requires shared.Length <= I32_MAX && InBounds(shared[..], arg)
    requires sent == Sends(app, f, Region(shared[..], arg))
    requires HasRoom(app.invoke, sent, arg, shared.Length)
    modifies shared
    ensures LeftBehind(shared[..], arg, sent.payload, MessageOf(app.invoke, sent, arg), v)
  {
    var memory := new GuestMemory(shared, arg.start, arg.len);
    var bytes := memory.GetWhole();
    var answer := Sends(app, f, bytes);
    v := Exit(memory, answer.payload, app.invoke, answer.about);
  }

  // ----- the host -----

  datatype ExecState<M> = Done(value: M) | Continue(call: HostCall)

  function SliceOf(m: MemorySlice): WasmPointer { WasmPointer(AsI32(m.start), AsI32(m.len)) }

  function ReadFailed(e: ReadError): DetectionError {
    match e
    case OutOfBounds => MemoryFailed
    case LengthPanic => Panicked
  }

  method ReadMessage<M>(runner: WasmRunner, c: Codec<M>, p: WasmPointer)
    returns (r: Result<M, DetectionError>)
    requires runner.Valid()
    modifies runner
    ensures runner.Valid()
    ensures match HostRead(old(runner.Contents()), p)
            case Failure(e) =>
              && r == Failure(if e == OutOfBounds then MemoryFailed else Panicked)
              && runner.Contents() == old(runner.Contents())
            case Success((after, bytes)) =>
              && runner.Contents() == after
              && r == match c.decode(bytes) case None => Failure(Undecodable) case Some(m) => Success(m)
  {
    var bytes := runner.ReadBytes(p);
    if bytes.Failure? {
      return Failure(ReadFailed(bytes.error));
    }
    match c.decode(bytes.value) {
      case None => r := Failure(Undecodable);
      case Some(m) => r := Success(m);
    }
  }

  /** The first half of `call`: run the function and read the message it returns. The message is what
      the guest meant, and its payload lies where the message says. */
  method Invoke<Req, Par, Rep, Out>(runner: WasmRunner, app: Application<Req, Par, Rep, Out>, f: Export,
                                    arg: WasmPointer, ghost sent: Sent)
    returns (r: Result<InvokeResult, DetectionError>)
    requires runner.Valid() && Lawful(app.invoke) && InBounds(runner.memory[..], arg)
    requires sent == Sends(app, f, Region(runner.memory[..], arg))
    requires HasRoom(app.invoke, sent, arg, runner.memory.Length)
    modifies runner, runner.memory
    ensures runner.Valid()
    ensures var slice := PayloadSlice(arg, sent.payload);
            && r == Success(InvokeResult(Some(sent.about(slice))))
            && Addressable(slice)
            && InBounds(runner.memory[..], slice) && Region(runner.memory[..], slice) == sent.payload
    ensures runner.ptr ==
      old(runner.ptr).Join(ResultSlice(arg, sent.payload, MessageOf(app.invoke, sent, arg)))
  {
    ghost var message := MessageOf(app.invoke, sent, arg);
    var v := RunGuest(app, f, runner.memory, arg, sent);
    PackRoundTripIff(ResultSlice(arg, sent.payload, message).start, |message|);
    r := ReadMessage(runner, app.invoke, Unpack(v));
  }

  predicate Addressable(p: WasmPointer) {
    0 <= p.start <= I32_MAX && 0 <= p.len <= I32_MAX
  }

  lemma SliceArrives(p: WasmPointer)
    requires Addressable(p)
    ensures SliceOf(WrapSlice(p).value) == p
  {
  }

  /** The second half of `call`: act on what the guest said about its payload. */
  method Dispatch<M>(runner: WasmRunner, told: Invocation, c: Codec<M>,
                     ghost slice: WasmPointer, ghost payload: seq<byte>)
    returns (r: Result<ExecState<M>, DetectionError>)
    requires runner.Valid() && Addressable(slice)
    requires InBounds(runner.memory[..], slice) && Region(runner.memory[..], slice) == payload
    requires told.Finished? ==> told.ptr == WrapSlice(slice)
    modifies runner
    ensures runner.Valid()
    ensures match told
            case Finished(_) => r == Decoded(c, payload)
            case Calling(call) => r == Success(Continue(call)) && runner.ptr == old(runner.ptr)
            case Erred(message, _) => r == Failure(GuestFailed(message))
  {
    match told {
      case Finished(m) =>
        SliceArrives(slice);
        var out := ReadMessage(runner, c, SliceOf(m.value));
        r := match out case Failure(e) => Failure(e) case Success(value) => Success(Done(value));
      case Calling(call) => r := Success(Continue(call));
      case Erred(text, _) => r := Failure(GuestFailed(text));
    }
  }

  /** `WasmRunner::call`: a finished guest's output is read at once, a host call is passed on. */
  method Call<M, Req, Par, Rep, Out>(runner: WasmRunner, app: Application<Req, Par, Rep, Out>, f: Export,
                                     arg: WasmPointer, c: Codec<M>, ghost sent: Sent)
    returns (r: Result<ExecState<M>, DetectionError>)
    requires runner.Valid() && Lawful(app.invoke) && InBounds(runner.memory[..], arg)
    requires sent == Sends(app, f, Region(runner.memory[..], arg))
    requires HasRoom(app.invoke, sent, arg, runner.memory.Length)
    modifies runner, runner.memory
    ensures runner.Valid()
    ensures var slice := PayloadSlice(arg, sent.payload);
            && Addressable(slice)
            && InBounds(runner.memory[..], slice) && Region(runner.memory[..], slice) == sent.payload
            && match sent.about(slice)
               case Finished(_) => r == Decoded(c, sent.payload)
               case Calling(call) =>
                 && r == Success(Continue(call))
                 && runner.ptr == old(runner.ptr).Join(
                      ResultSlice(arg, sent.payload, MessageOf(app.invoke, sent, arg)))
               case Erred(message, _) => r == Failure(GuestFailed(message))
  {
    SentPointsAtPayload(app, f, Region(runner.memory[..], arg), PayloadSlice(arg, sent.payload));
    var read := Invoke(runner, app, f, arg, sent);
    r := Dispatch(runner, read.value.result.value, c, PayloadSlice(arg, sent.payload), sent.payload);
  }

  function Decoded<M>(c: Codec<M>, bytes: seq<byte>): Result<ExecState<M>, DetectionError> {
    match c.decode(bytes)
    case None => Failure(Undecodable)
    case Some(m) => Success(Done(m))
  }

  lemma SentPointsAtPayload<Req, Par, Rep, Out>(app: Application<Req, Par, Rep, Out>, f: Export,
                                                arg: seq<byte>, slice: WasmPointer)
    ensures match Sends(app, f, arg).about(slice)
            case Finished(p) => p == WrapSlice(slice)
            case Calling(call) => call == HostCall("infer", Some("get_probability"), WrapSlice(slice))
            case Erred(_, details) => details == WrapSlice(slice)
  {
  }

  /** Where the host's cursor stands after a call that hands back a payload of p bytes and a message of r
      bytes, when it stood at n: behind the message's length and payload, or before its old place. */
  lemma CursorAfterCall(n: nat, payload: seq<byte>, message: seq<byte>)
    ensures var arg := WasmPointer(0, n);
            var after := arg.Join(ResultSlice(arg, payload, message)).Join(PayloadSlice(arg, payload));
            && after.start == 0
            && after.Next() == (if |message| >= n then |payload| + |message| + 1 else n - |message|)
            && 0 <= after.Next()
            && (after.Next() < n <==> 0 < |message| < n)
  {
  }

  /** The same detection without any memory in between. */
  function Direct<Req, Par, Rep, Out>(app: Application<Req, Par, Rep, Out>, request: Req)
    : Result<Out, DetectionError>
  {
    match app.prepare(request)
    case Failure(e) => Failure(GuestFailed(e))
    case Success(params) =>
      match app.infer(params)
      case Failure(e) => Failure(InferenceFailed(e))
      case Success(reply) =>
        match app.finish(reply)
        case Failure(e) => Failure(GuestFailed(e))
        case Success(out) => Success(out)
  }

  /** The region the host writes the inference's reply to. */
  function ReplyRegion<Req, Par, Rep, Out>(app: Application<Req, Par, Rep, Out>, request: seq<byte>,
                                           reply: seq<byte>): WasmPointer
  {
    var arg := WasmPointer(0, |request|);
    var sent := MainSends(app, request);
    var slice, message := PayloadSlice(arg, sent.payload), MessageOf(app.invoke, sent, arg);
    WasmPointer(arg.Join(ResultSlice(arg, sent.payload, message)).Join(slice).Next(), |reply|)
  }

  /** Memory enough for each message at its place. */
  ghost predicate Fits<Req, Par, Rep, Out>(app: Application<Req, Par, Rep, Out>, request: Req, size: nat) {
    var bytes := app.request.encode(request);
    && |bytes| <= size && HasRoom(app.invoke, MainSends(app, bytes), WasmPointer(0, |bytes|), size)
    && (app.prepare(request).Success? && app.infer(app.prepare(request).value).Success? ==>
        var reply := app.reply.encode(app.infer(app.prepare(request).value).value);
        var region := ReplyRegion(app, bytes, reply);
        && region.start + region.len <= size
        && HasRoom(app.invoke, ContinueSends(app, reply), region, size))
  }

  /** `run_detection`: for every request and all message sizes that fit, the two trips through the shared
      memory change nothing. Each side gets exactly the bytes the other meant, and the answer is that of
      the bare computation, errors included. */
  method RunDetection<Req(!new), Par(!new), Rep(!new), Out(!new)>(
    app: Application<Req, Par, Rep, Out>, request: Req, size: nat)
    returns (r: Result<Out, DetectionError>)
    requires LawfulFormats(app) && size <= I32_MAX && Fits(app, request, size)
    ensures r == Direct(app, request)
  {
    var wasm := new WasmRunner(size);
    var arg := Hand(wasm, app.request.encode(request));
    var params := FirstTrip(wasm, app, request, arg);
    if params.Failure? {
      return Failure(params.error);
    }
    var inferred := app.infer(params.value.0);
    if inferred.Failure? {
      return Failure(InferenceFailed(inferred.error));
    }
    arg := Hand(wasm, app.reply.encode(inferred.value));
    var cont := ExportNamed(params.value.1);
    if cont.None? {
      return Failure(NoSuchExport);
    }
    r := SecondTrip(wasm, app, cont.value, inferred.value, arg);
  }

  /** Write a message for the guest to find in the region returned. */
  method Hand(wasm: WasmRunner, bytes: seq<byte>) returns (arg: WasmPointer)
    requires wasm.Valid() && wasm.ptr.Next() + |bytes| <= wasm.memory.Length
    modifies wasm, wasm.memory
    ensures wasm.Valid() && wasm.ptr == old(wasm.ptr).Consume(|bytes|)
    ensures arg == WasmPointer(old(wasm.ptr).Next(), |bytes|)
    ensures InBounds(wasm.memory[..], arg) && Region(wasm.memory[..], arg) == bytes
  {
    SpliceHit(wasm.memory[..], wasm.ptr.Next(), bytes);
    var written := wasm.WriteBytes(bytes);
    arg := written.value;
  }

  /** The second trip: continue with the reply and read the output. */
  method SecondTrip<Req(!new), Par(!new), Rep(!new), Out(!new)>(
    wasm: WasmRunner, app: Application<Req, Par, Rep, Out>, f: Export, reply: Rep, arg: WasmPointer)
    returns (r: Result<Out, DetectionError>)
    requires LawfulFormats(app) && wasm.Valid() && f == GetProbability
    requires InBounds(wasm.memory[..], arg)
    requires Region(wasm.memory[..], arg) == app.reply.encode(reply)
    requires HasRoom(app.invoke, ContinueSends(app, app.reply.encode(reply)), arg, wasm.memory.Length)
    modifies wasm, wasm.memory
    ensures r == match app.finish(reply)
                 case Failure(e) => Failure(GuestFailed(e))
                 case Success(out) => Success(out)
  {
    var second := Call(wasm, app, f, arg, app.output, ContinueSends(app, app.reply.encode(reply)));
    match second {
      case Failure(e) => r := Failure(e);
      case Success(Done(out)) => r := Success(out);
      case Success(Continue(_)) => r := Failure(Panicked);
    }
  }

  /** The first trip: call `main` on the request, read the parameters it asks the inference for and the
      name of the function to continue with. */
  method FirstTrip<Req(!new), Par(!new), Rep(!new), Out(!new)>(
    wasm: WasmRunner, app: Application<Req, Par, Rep, Out>, request: Req, arg: WasmPointer)
    returns (r: Result<(Par, string), DetectionError>)
    requires LawfulFormats(app) && wasm.Valid() && wasm.ptr == arg
    requires InBounds(wasm.memory[..], arg)
    requires Region(wasm.memory[..], arg) == app.request.encode(request)
    requires HasRoom(app.invoke, MainSends(app, app.request.encode(request)), arg, wasm.memory.Length)
    modifies wasm, wasm.memory
    ensures wasm.Valid()
    ensures r == match app.prepare(request)
                 case Failure(e) => Failure(GuestFailed(e))
                 case Success(params) => Success((params, "get_probability"))
    ensures r.Success? ==> forall reply: seq<byte> ::
      wasm.ptr.Next() == ReplyRegion(app, app.request.encode(request), reply).start
  {
    ghost var bytes := app.request.encode(request);
    var unit: Codec<()> := Codec(_ => [], _ => Some(()));
    ghost var sent := MainSends(app, bytes);
    ghost var slice := PayloadSlice(arg, sent.payload);
    var first := Call(wasm, app, Main, arg, unit, sent);
    match first {
      case Failure(e) => r := Failure(e);
      case Success(Done(_)) => r := Failure(Panicked);
      case Success(Continue(call)) =>
        assert SliceOf(call.parameters.value) == slice;
        if call.parameters.None? || call.cont.None? {
          return Failure(IncompleteCall);
        }
        var params := ReadMessage(wasm, app.parameters, SliceOf(call.parameters.value));
        r := match params
             case Failure(e) => Failure(e)
             case Success(value) => Success((value, call.cont.value));
    }
  }
}
