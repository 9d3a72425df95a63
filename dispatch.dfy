/**
 * The MVC data worker's decisions (`MvcDataworker`): which frames it takes
 * from the bridge's deque, how a request is routed to a resource and its
 * reader and writer interceptors, how the reply path is rewritten, how faults
 * become coded replies or are handed to exception mappers, and the
 * start/shutdown lifecycle.
 *
 * The registries (resources, interceptors, mappers) are given as values; what
 * the JSON parser, the interceptors, the filters and the resource itself do is
 * reduced to whether each step returns or throws, given as a `Script`.
 */
module Dispatch {
  import opened Common
  import opened Wire
  import opened Channels

  /** The exceptions the pipeline tells apart; `Failure` is any other one. */
  datatype Fault = ResourceNotFound | MediaTypeNoSupport | ParamValidation | NullPointer | Failure(code: nat)

  datatype Result<T> = Ok(value: T) | Err(fault: Fault)

  /** A reader or writer interceptor, with the media types it accepts. */
  datatype Interceptor = Interceptor(id: nat, mediaTypes: set<string>)

  /** A resource method: the media type it consumes and the one it produces. */
  datatype Resource = Resource(consume: string, produce: string)

  /** An exception mapper, with the faults it claims. */
  datatype Mapper = Mapper(id: nat, handles: set<Fault>)

  /** What a writer is asked to encode: a `BaseDTO` (`new BaseDTO(code)`, `buildSuccess`, `buildError(code)`), a handler's own object, or a mapper's response. */
  datatype DtoKind = Plain | Success | Error
  datatype Value = Dto(kind: DtoKind, status: string) | UserValue(token: nat) | MapperResponse(mapper: nat, fault: Fault)

  /** The body of an `InterfaceData`: what a writer produced from a value, or bytes a handler built itself. */
  datatype Payload = Encoded(writer: nat, value: Value) | Opaque(token: nat)

  /** The application envelope: correlation id, invoked path (None for a Java null), payload. */
  datatype InterfaceData = InterfaceData(id: string, invoke: Option<string>, data: Payload)

  /** A parsed request envelope; `invoke` is None when the envelope names no path, and `data` stands for its opaque parameter bytes. */
  datatype Message = Message(id: string, invoke: Option<string>, data: nat)

  /** What the resource method returned. */
  datatype HandlerResult = NullResult | DataResult(d: InterfaceData) | ObjectResult(token: nat)

  /** The registries the worker consults, in their containers' order. */
  datatype Env = Env(resources: map<string, Resource>, readers: seq<Interceptor>, writers: seq<Interceptor>,
                     mappers: seq<Mapper>)

  /** How each foreign step of one request goes: the body's parse, the parameter read, validation, the request filter, the call, the response filter. */
  datatype Script = Script(parse: Result<Message>, read: Option<Fault>, check: Option<Fault>,
                           requestFilter: Option<Fault>, invoke: Result<HandlerResult>, responseFilter: Option<Fault>)

  /** `worker(type)`: only application frames (type 1) are processed. */
  function Worker(kind: int): (r: bool)
    ensures r <==> kind == MvcType as int
  {
    kind == 1
  }

  /** The media type asked for, with an empty one meaning "json". */
  function MediaTypeOrJson(t: string): (r: string)
    ensures r != [] && (t != [] ==> r == t)
  {
    if IsEmpty(t) then "json" else t
  }

  /** The first interceptor, in container order, that accepts `t`. */
  function FirstMatch(cs: seq<Interceptor>, t: string): (r: Option<Interceptor>)
    ensures r.None? <==> forall i :: 0 <= i < |cs| ==> t !in cs[i].mediaTypes
    ensures r.Some? ==> exists i :: 0 <= i < |cs| && cs[i] == r.value && t in cs[i].mediaTypes
                                    && forall j :: 0 <= j < i ==> t !in cs[j].mediaTypes
  {
    if cs == [] then None
    else if t in cs[0].mediaTypes then Some(cs[0])
    else
      var r := FirstMatch(cs[1..], t);
      if r.Some? then
        var i :| 0 < i + 1 <= |cs[1..]| && cs[1..][i] == r.value && t in cs[1..][i].mediaTypes
                 && forall j :: 0 <= j < i ==> t !in cs[1..][j].mediaTypes;
        assert cs[i + 1] == r.value && forall j :: 0 <= j < i + 1 ==> t !in cs[j].mediaTypes;
        r
      else r
  }

  /**
   * `findReaderInterceptor` and `findWriterInterceptor`: an empty media type
   * means "json"; the first interceptor that accepts it is chosen, and none
   * throws MediaTypeNoSupportException.
   */
  function FindInterceptor(cs: seq<Interceptor>, mediaType: string): (r: Result<Interceptor>)
    ensures r.Err? <==> forall i :: 0 <= i < |cs| ==> MediaTypeOrJson(mediaType) !in cs[i].mediaTypes
    ensures r.Err? ==> r.fault == MediaTypeNoSupport
    ensures r.Ok? ==> exists i :: 0 <= i < |cs| && cs[i] == r.value && MediaTypeOrJson(mediaType) in cs[i].mediaTypes
                                  && forall j :: 0 <= j < i ==> MediaTypeOrJson(mediaType) !in cs[j].mediaTypes
  {
    match FirstMatch(cs, MediaTypeOrJson(mediaType))
    case None => Err(MediaTypeNoSupport)
    case Some(c) => Ok(c)
  }

  /** `findResource`: a null, empty or unmapped path throws ResourceNotFoundException. */
  function FindResource(resources: map<string, Resource>, path: Option<string>): (r: Result<Resource>)
    ensures r.Ok? <==> path.Some? && path.value != [] && path.value in resources
    ensures r.Ok? ==> r.value == resources[path.value]
    ensures r.Err? ==> r.fault == ResourceNotFound
  {
    if path.None? || IsEmpty(path.value) then Err(ResourceNotFound)
    else if path.value !in resources then Err(ResourceNotFound)
    else Ok(resources[path.value])
  }

  /** The reply path: `/back` in front of the invoked path, with a separating slash when it has none. */
  function BackPath(invoke: string): (r: string)
    ensures StartsWith(r, "/back/")
    ensures StartsWith(invoke, "/") ==> r[5..] == invoke
    ensures !StartsWith(invoke, "/") ==> r[6..] == invoke
  {
    if StartsWith(invoke, "/") then "/back" + invoke else "/back/" + invoke
  }

  /** A path and the same path with a leading slash get the same reply path. */
  lemma BackPathIgnoresLeadingSlash(p: string)
    requires !StartsWith(p, "/")
    ensures BackPath("/" + p) == BackPath(p)
  {
    assert ("/" + p)[..1] == "/";
  }

  /**
   * `buildResult`: the reply keeps the request's id, answers on the `/back`
   * path, and carries the writer's encoding of the result; no writer, no
   * reply. The path is rewritten before the writer is checked, so a null path
   * throws NullPointerException whatever the writer.
   */
  function BuildResult(result: Value, id: string, invoke: Option<string>, writer: Option<Interceptor>)
    : (r: Result<Option<InterfaceData>>)
    ensures r.Err? <==> invoke.None?
    ensures r.Err? ==> r.fault == NullPointer
    ensures r.Ok? ==> (r.value.None? <==> writer.None?)
    ensures r.Ok? && r.value.Some? ==> r.value.value.id == id && r.value.value.invoke == Some(BackPath(invoke.value))
                                       && r.value.value.data == Encoded(writer.value.id, result)
  {
    if invoke.None? then Err(NullPointer)
    else if writer.None? then Ok(None)
    else Ok(Some(InterfaceData(id, Some(BackPath(invoke.value)), Encoded(writer.value.id, result))))
  }

  /** The response context as the catch clauses see it: None while the resource has not returned. */
  datatype ResponseCtx = ResponseCtx(writer: Option<Interceptor>)

  /**
   * `resolveDataInterceptor`: the writer the response context already holds;
   * otherwise the writer for the resource's produce type; when that fails
   * (also for a missing resource), the "json" writer. A null response context
   * throws at once.
   */
  function ResolveWriter(response: Option<ResponseCtx>, resource: Option<Resource>, writers: seq<Interceptor>): (r: Result<Interceptor>)
    ensures response.None? ==> r == Err(NullPointer)
    ensures response.Some? && response.value.writer.Some? ==> r == Ok(response.value.writer.value)
    ensures response.Some? && response.value.writer.None? ==>
              r == (if resource.Some? && FindInterceptor(writers, resource.value.produce).Ok?
                    then FindInterceptor(writers, resource.value.produce) else FindInterceptor(writers, ""))
  {
    if response.None? then Err(NullPointer)
    else if response.value.writer.Some? then Ok(response.value.writer.value)
    else if resource.None? then FindInterceptor(writers, "")
    else match FindInterceptor(writers, resource.value.produce)
      case Ok(w) => Ok(w)
      case Err(_) => FindInterceptor(writers, "")
  }

  /** What the catch clauses of `accept` can see when a fault is raised. */
  datatype Seen = Seen(message: Option<Message>, resource: Option<Resource>, response: Option<ResponseCtx>)

  /** The pipeline's happy path ends with a reply, or a fault is raised somewhere along it. */
  datatype Progress = Done(reply: Option<InterfaceData>) | Raised(fault: Fault, seen: Seen)

  /**
   * `response`: the response filter, then the writer for the produce type,
   * which the response context then holds; a null result becomes a success
   * `BaseDTO`, an `InterfaceData` is returned unchanged, anything else is
   * written; the first and last go to `/back`.
   */
  function Respond(env: Env, s: Script, m: Message, res: Resource, result: HandlerResult): (p: Progress)
    ensures s.responseFilter.Some? ==> p == Raised(s.responseFilter.value, Seen(Some(m), Some(res), Some(ResponseCtx(None))))
    ensures s.responseFilter.None? && FindInterceptor(env.writers, res.produce).Err? ==>
              p == Raised(MediaTypeNoSupport, Seen(Some(m), Some(res), Some(ResponseCtx(None))))
    ensures s.responseFilter.None? && FindInterceptor(env.writers, res.produce).Ok? && m.invoke.None? && !result.DataResult? ==>
              p == Raised(NullPointer, Seen(Some(m), Some(res), Some(ResponseCtx(Some(FindInterceptor(env.writers, res.produce).value)))))
    ensures p.Done? <==> s.responseFilter.None? && FindInterceptor(env.writers, res.produce).Ok?
                         && (m.invoke.Some? || result.DataResult?)
    ensures p.Done? ==>
              var w := FindInterceptor(env.writers, res.produce).value;
              match result
              case NullResult => p.reply == BuildResult(Dto(Success, ""), m.id, m.invoke, Some(w)).value
              case DataResult(d) => p.reply == Some(d)
              case ObjectResult(t) => p.reply == BuildResult(UserValue(t), m.id, m.invoke, Some(w)).value
  {
    var seen := Seen(Some(m), Some(res), Some(ResponseCtx(None)));
    if s.responseFilter.Some? then Raised(s.responseFilter.value, seen)
    else match FindInterceptor(env.writers, res.produce)
      case Err(f) => Raised(f, seen)
      case Ok(w) =>
        var written := seen.(response := Some(ResponseCtx(Some(w))));
        match result
        case DataResult(d) => Done(Some(d))
        case NullResult =>
          (match BuildResult(Dto(Success, ""), m.id, m.invoke, Some(w))
           case Err(f) => Raised(f, written)
           case Ok(reply) => Done(reply))
        case ObjectResult(t) =>
          (match BuildResult(UserValue(t), m.id, m.invoke, Some(w))
           case Err(f) => Raised(f, written)
           case Ok(reply) => Done(reply))
  }

  /**
   * The `try` block of `accept` for a non-empty body: parse, find the
   * resource, find the reader, read the parameters, validate, filter, call,
   * and respond. A fault raised before the call returns leaves the response
   * context null.
   */
  function Process(env: Env, s: Script): (p: Progress)
    ensures p.Raised? && p.seen.response.None? ==>
              s.parse.Err? || FindResource(env.resources, s.parse.value.invoke).Err?
              || FindInterceptor(env.readers, FindResource(env.resources, s.parse.value.invoke).value.consume).Err?
              || s.read.Some? || s.check.Some? || s.requestFilter.Some? || s.invoke.Err?
    ensures p.Raised? && p.seen.message.None? ==> s.parse.Err?
  {
    match s.parse
    case Err(f) => Raised(f, Seen(None, None, None))
    case Ok(m) =>
      match FindResource(env.resources, m.invoke)
      case Err(f) => Raised(f, Seen(Some(m), None, None))
      case Ok(res) =>
        var before := Seen(Some(m), Some(res), None);
        match FindInterceptor(env.readers, res.consume)
        case Err(f) => Raised(f, before)
        case Ok(_) =>
          if s.read.Some? then Raised(s.read.value, before)
          else if s.check.Some? then Raised(s.check.value, before)
          else if s.requestFilter.Some? then Raised(s.requestFilter.value, before)
          else match s.invoke
            case Err(f) => Raised(f, before)
            case Ok(result) => Respond(env, s, m, res, result)
  }

  /** The mappers, in container order, that claim a fault. */
  function Claiming(mappers: seq<Mapper>, f: Fault): (r: seq<Mapper>)
    ensures forall m :: m in r <==> m in mappers && f in m.handles
    ensures r != [] ==> r[0] in mappers && f in r[0].handles
                        && exists i :: 0 <= i < |mappers| && mappers[i] == r[0]
                                       && forall j :: 0 <= j < i ==> f !in mappers[j].handles
  {
    if mappers == [] then []
    else if f in mappers[0].handles then [mappers[0]] + Claiming(mappers[1..], f)
    else
      var rest := Claiming(mappers[1..], f);
      if rest != [] then
        var i :| 0 <= i < |mappers[1..]| && mappers[1..][i] == rest[0]
                 && forall j :: 0 <= j < i ==> f !in mappers[1..][j].handles;
        assert mappers[i + 1] == rest[0] && forall j :: 0 <= j < i + 1 ==> f !in mappers[j].handles;
        rest
      else rest
  }

  /** The outcome of `accept`: null (no body), a reply for the connection, or an exception it lets escape. */
  datatype Accepted = NoReply | Reply(data: Option<InterfaceData>, to: ChannelInfo) | Threw(fault: Fault)

  /** A coded reply (401, 400) from a catch clause, written with the resolved writer. */
  function CodedReply(v: Value, seen: Seen, resolved: Result<Interceptor>, channel: string): (r: Accepted)
    ensures seen.message.None? ==> r == Threw(NullPointer)
    ensures seen.message.Some? && resolved.Err? ==> r == Threw(resolved.fault)
    ensures seen.message.Some? && resolved.Ok? && seen.message.value.invoke.None? ==> r == Threw(NullPointer)
    ensures seen.message.Some? && resolved.Ok? && seen.message.value.invoke.Some? ==>
              r == Reply(BuildResult(v, seen.message.value.id, seen.message.value.invoke, Some(resolved.value)).value,
                         ChannelOnly(channel))
  {
    if seen.message.None? then Threw(NullPointer)
    else match resolved
      case Err(f) => Threw(f)
      case Ok(w) =>
        match BuildResult(v, seen.message.value.id, seen.message.value.invoke, Some(w))
        case Err(f) => Threw(f)
        case Ok(reply) => Reply(reply, ChannelOnly(channel))
  }

  /**
   * The catch clauses of `accept`. ResourceNotFound answers "404" with the
   * default writer; MediaTypeNoSupport "401" and ParamValidation "400" with
   * the resolved writer; any other fault goes to the first mapper that claims
   * it, whose response keeps the invoked path as it was, and with no such
   * mapper it escapes. `resolved` is the outcome of `resolveDataInterceptor`.
   */
  function Recover(env: Env, fault: Fault, seen: Seen, resolved: Result<Interceptor>, channel: string): (r: Accepted)
    ensures r.Reply? ==> seen.message.Some? && r.to == ChannelOnly(channel)
    ensures fault !in {ResourceNotFound, MediaTypeNoSupport, ParamValidation} && Claiming(env.mappers, fault) == [] ==>
              r == Threw(fault)
    ensures fault == ResourceNotFound && seen.message.Some? && seen.message.value.invoke.None?
            && FindInterceptor(env.writers, "").Ok? ==>
              r == Threw(NullPointer)
    ensures fault == ResourceNotFound && seen.message.Some? && seen.message.value.invoke.Some?
            && FindInterceptor(env.writers, "").Ok? ==>
              r == Reply(BuildResult(Dto(Plain, "404"), seen.message.value.id, seen.message.value.invoke,
                                     Some(FindInterceptor(env.writers, "").value)).value, ChannelOnly(channel))
    ensures fault !in {ResourceNotFound, MediaTypeNoSupport, ParamValidation} && r.Reply? ==>
              resolved.Ok? && r.data == Some(InterfaceData(seen.message.value.id, seen.message.value.invoke,
                                           Encoded(resolved.value.id, MapperResponse(Claiming(env.mappers, fault)[0].id, fault))))
  {
    match fault
    case ResourceNotFound() =>
      if seen.message.None? then Threw(NullPointer)
      else (match FindInterceptor(env.writers, "")
        case Err(f) => Threw(f)
        case Ok(w) =>
          match BuildResult(Dto(Plain, "404"), seen.message.value.id, seen.message.value.invoke, Some(w))
          case Err(f) => Threw(f)
          case Ok(reply) => Reply(reply, ChannelOnly(channel)))
    case MediaTypeNoSupport() => CodedReply(Dto(Plain, "401"), seen, resolved, channel)
    case ParamValidation() => CodedReply(Dto(Error, "400"), seen, resolved, channel)
    case _ =>
      var claiming := Claiming(env.mappers, fault);
      if claiming == [] then Threw(fault)
      else if seen.message.None? then Threw(NullPointer)
      else match resolved
        case Err(f) => Threw(f)
        case Ok(w) =>
          Reply(Some(InterfaceData(seen.message.value.id, seen.message.value.invoke,
                                   Encoded(w.id, MapperResponse(claiming[0].id, fault)))), ChannelOnly(channel))
  }

  /** `accept(datagram, channelInfo)` as written: an empty body gives null before anything is looked up. */
  function Accept(env: Env, body: seq<byte>, s: Script, channel: string): (r: Accepted)
    ensures |body| == 0 <==> r == NoReply
    ensures |body| > 0 && Process(env, s).Done? ==> r == Reply(Process(env, s).reply, ChannelOnly(channel))
  {
    if |body| == 0 then NoReply
    else match Process(env, s)
      case Done(reply) => Reply(reply, ChannelOnly(channel))
      case Raised(f, seen) => Recover(env, f, seen, ResolveWriter(seen.response, seen.resource, env.writers), channel)
  }

  /** A request that completes: the reply follows the result's three branches, all sent to the requesting connection. */
  lemma AcceptHappyPath(env: Env, body: seq<byte>, s: Script, channel: string, m: Message, res: Resource,
                        w: Interceptor, result: HandlerResult)
    requires |body| > 0 && s.parse == Ok(m) && FindResource(env.resources, m.invoke) == Ok(res)
    requires FindInterceptor(env.readers, res.consume).Ok?
    requires s.read.None? && s.check.None? && s.requestFilter.None? && s.invoke == Ok(result) && s.responseFilter.None?
    requires FindInterceptor(env.writers, res.produce) == Ok(w)
    ensures var r := Accept(env, body, s, channel);
            && r.Reply? && r.to == ChannelOnly(channel)
            && (result.NullResult? ==>
                  r.data == Some(InterfaceData(m.id, Some(BackPath(m.invoke.value)), Encoded(w.id, Dto(Success, "")))))
            && (result.DataResult? ==> r.data == Some(result.d))
            && (result.ObjectResult? ==>
                  r.data == Some(InterfaceData(m.id, Some(BackPath(m.invoke.value)), Encoded(w.id, UserValue(result.token)))))
  {
  }

  /**
   * A request for an unknown path is answered "404" on the `/back` path,
   * written by the default writer; a request naming no path at all gets no
   * reply, since rewriting its path throws NullPointerException.
   */
  lemma UnknownPathAnswers404(env: Env, body: seq<byte>, s: Script, channel: string, m: Message, json: Interceptor)
    requires |body| > 0 && s.parse == Ok(m) && FindResource(env.resources, m.invoke).Err?
    requires FindInterceptor(env.writers, "") == Ok(json)
    ensures m.invoke.Some? ==>
              Accept(env, body, s, channel)
              == Reply(Some(InterfaceData(m.id, Some(BackPath(m.invoke.value)), Encoded(json.id, Dto(Plain, "404")))),
                       ChannelOnly(channel))
    ensures m.invoke.None? ==> Accept(env, body, s, channel) == Threw(NullPointer)
  {
  }

  /** As written: an envelope without a path gets no "404" reply; the 404 branch itself throws NullPointerException. */
  lemma NullInvokeThrows(env: Env, body: seq<byte>, s: Script, channel: string, m: Message)
    requires |body| > 0 && s.parse == Ok(m) && m.invoke.None? && FindInterceptor(env.writers, "").Ok?
    ensures Process(env, s) == Raised(ResourceNotFound, Seen(Some(m), None, None))
    ensures Accept(env, body, s, channel) == Threw(NullPointer)
  {
  }

  /** A fault no mapper claims escapes `accept`, so nothing is published for the request. */
  lemma UnclaimedFaultEscapes(env: Env, body: seq<byte>, s: Script, channel: string)
    requires |body| > 0 && Process(env, s).Raised?
    requires var f := Process(env, s).fault;
             f !in {ResourceNotFound, MediaTypeNoSupport, ParamValidation} && Claiming(env.mappers, f) == []
    ensures Accept(env, body, s, channel) == Threw(Process(env, s).fault)
  {
  }

  /** As written: a resource whose consume type no reader accepts gets no reply at all, since the 401 branch dereferences the null response context. */
  lemma MissingReaderThrows(env: Env, body: seq<byte>, s: Script, channel: string, m: Message, res: Resource)
    requires |body| > 0 && s.parse == Ok(m) && FindResource(env.resources, m.invoke) == Ok(res)
    requires FindInterceptor(env.readers, res.consume).Err?
    ensures Accept(env, body, s, channel) == Threw(NullPointer)
  {
  }

  /** As written: a failed validation gets no "400" reply either, and a mapper that claims the handler's own exception is never reached. */
  lemma EarlyFaultsThrow(env: Env, body: seq<byte>, s: Script, channel: string, m: Message, res: Resource)
    requires |body| > 0 && s.parse == Ok(m) && FindResource(env.resources, m.invoke) == Ok(res)
    requires FindInterceptor(env.readers, res.consume).Ok? && s.read.None?
    requires s.check == Some(ParamValidation)
             || (s.check.None? && s.requestFilter.None? && s.invoke.Err? && s.invoke.fault.Failure?
                 && Claiming(env.mappers, s.invoke.fault) != [])
    ensures Accept(env, body, s, channel) == Threw(NullPointer)
  {
  }

  /** The writer choice as intended: a response context not built yet is one without a writer. */
  function FixedResolveWriter(response: Option<ResponseCtx>, resource: Option<Resource>, writers: seq<Interceptor>): (r: Result<Interceptor>)
    ensures r.Err? ==> r.fault == MediaTypeNoSupport
    ensures FindInterceptor(writers, "").Ok? ==> r.Ok?
    ensures response.Some? ==> r == ResolveWriter(response, resource, writers)
  {
    ResolveWriter(if response.None? then Some(ResponseCtx(None)) else response, resource, writers)
  }

  /** The intended reading of an envelope that names no path: the empty path, which no resource is mapped to. */
  function PathOrEmpty(s: Script): (r: Script)
    ensures r.parse.Ok? <==> s.parse.Ok?
    ensures r.parse.Ok? ==> r.parse.value.invoke.Some?
                            && r.parse.value == s.parse.value.(invoke := r.parse.value.invoke)
    ensures (s.parse.Ok? && s.parse.value.invoke.Some?) || s.parse.Err? ==> r == s
  {
    if s.parse.Ok? && s.parse.value.invoke.None? then s.(parse := Ok(s.parse.value.(invoke := Some("")))) else s
  }

  /** `accept` with the intended writer choice, and with a missing path read as the empty one. */
  function FixedAccept(env: Env, body: seq<byte>, s: Script, channel: string): (r: Accepted)
    ensures |body| == 0 <==> r == NoReply
  {
    if |body| == 0 then NoReply
    else match Process(env, PathOrEmpty(s))
      case Done(reply) => Reply(reply, ChannelOnly(channel))
      case Raised(f, seen) => Recover(env, f, seen, FixedResolveWriter(seen.response, seen.resource, env.writers), channel)
  }

  /**
   * As intended, once the request's envelope is parsed and a default writer
   * exists, every domain fault and every fault a mapper claims is answered,
   * wherever along the pipeline it was raised.
   */
  lemma FixedAnswersHandledFaults(env: Env, body: seq<byte>, s: Script, channel: string)
    requires |body| > 0 && s.parse.Ok? && FindInterceptor(env.writers, "").Ok?
    requires Process(env, s).Raised?
    requires var f := Process(env, s).fault;
             f in {ResourceNotFound, MediaTypeNoSupport, ParamValidation} || Claiming(env.mappers, f) != []
    ensures FixedAccept(env, body, s, channel).Reply?
    ensures FixedAccept(env, body, s, channel).data.Some?
  {
    var n := PathOrEmpty(s);
    if s.parse.value.invoke.None? {
      var m := n.parse.value;
      assert FindResource(env.resources, m.invoke) == Err(ResourceNotFound);
      assert Process(env, n) == Raised(ResourceNotFound, Seen(Some(m), None, None));
    } else {
      assert n == s;
      assert Process(env, n).seen.message.Some?;
    }
    var p := Process(env, n);
    FixedRecoverAnswers(env, p.fault, p.seen, channel);
  }

  /** With the path present and a default writer, recovering from a handled fault answers with data. */
  lemma FixedRecoverAnswers(env: Env, f: Fault, seen: Seen, channel: string)
    requires seen.message.Some? && seen.message.value.invoke.Some? && FindInterceptor(env.writers, "").Ok?
    requires f in {ResourceNotFound, MediaTypeNoSupport, ParamValidation} || Claiming(env.mappers, f) != []
    ensures var r := Recover(env, f, seen, FixedResolveWriter(seen.response, seen.resource, env.writers), channel);
            r.Reply? && r.data.Some?
  {
  }

  /** One `read` from the deque: the head frame is taken, and submitted with its connection when it decodes to an application frame. */
  function ReadOne(queue: seq<ProtocolData>): (r: (seq<ProtocolData>, Option<(Datagram, ChannelInfo)>))
    ensures queue == [] ==> r == ([], None)
    ensures queue != [] ==> r.0 == queue[1..]
    ensures r.1.Some? ==> queue != [] && Decode(queue[0].data) == Some(r.1.value.0)
                          && r.1.value.0.IsMvc() && r.1.value.1 == queue[0].channelInfo
    ensures queue != [] && Decode(queue[0].data).Some? && Decode(queue[0].data).value.IsMvc() ==>
              r.1 == Some((Decode(queue[0].data).value, queue[0].channelInfo))
  {
    if queue == [] then ([], None)
    else match Decode(queue[0].data)
      case None => (queue[1..], None)
      case Some(d) => (queue[1..], if Worker(d.kind as int) then Some((d, queue[0].channelInfo)) else None)
  }

  /** The application frames of a queue, in order, with their connections. */
  function Admitted(queue: seq<ProtocolData>): (r: seq<(Datagram, ChannelInfo)>)
    ensures |r| <= |queue|
    ensures forall i :: 0 <= i < |r| ==> r[i].0.IsMvc()
  {
    if queue == [] then []
    else
      (match Decode(queue[0].data)
       case Some(d) => if Worker(d.kind as int) then [(d, queue[0].channelInfo)] else []
       case None => []) + Admitted(queue[1..])
  }

  /** The frames of a queue are admitted in queue order: admitting a concatenation admits each part in turn. */
  lemma {:induction false} AdmittedConcat(a: seq<ProtocolData>, b: seq<ProtocolData>)
    ensures Admitted(a + b) == Admitted(a) + Admitted(b)
  {
    if a == [] {
      assert a + b == b;
    } else {
      assert (a + b)[0] == a[0];
      assert (a + b)[1..] == a[1..] + b;
      AdmittedConcat(a[1..], b);
    }
  }

  /** A one-frame queue admits exactly what one `read` submits. */
  lemma AdmittedOne(p: ProtocolData)
    ensures Admitted([p]) == if ReadOne([p]).1.Some? then [ReadOne([p]).1.value] else []
  {
  }

  /** Admitting a queue admits the frames before index `i`, then those from `i` on. */
  lemma AdmittedSplit(queue: seq<ProtocolData>, i: nat)
    requires i <= |queue|
    ensures Admitted(queue) == Admitted(queue[..i]) + Admitted(queue[i..])
  {
    assert queue == queue[..i] + queue[i..];
    AdmittedConcat(queue[..i], queue[i..]);
  }

  /** From an application frame on, that frame is admitted first. */
  lemma AdmittedFrom(queue: seq<ProtocolData>, i: nat)
    requires i < |queue| && Decode(queue[i].data).Some? && Decode(queue[i].data).value.IsMvc()
    ensures Admitted(queue[i..]) == [(Decode(queue[i].data).value, queue[i].channelInfo)] + Admitted(queue[i + 1..])
  {
    assert queue[i..][0] == queue[i] && queue[i..][1..] == queue[i + 1..];
  }

  /**
   * Every queued frame that decodes to an application frame is admitted, with
   * its connection, between the frames admitted before it and those after it.
   */
  lemma AdmittedAt(queue: seq<ProtocolData>, i: nat)
    requires i < |queue| && Decode(queue[i].data).Some? && Decode(queue[i].data).value.IsMvc()
    ensures Admitted(queue) == Admitted(queue[..i]) + [(Decode(queue[i].data).value, queue[i].channelInfo)]
                               + Admitted(queue[i + 1..])
  {
    AdmittedSplit(queue, i);
    AdmittedFrom(queue, i);
  }

  /** The worker's lifecycle fields: the shutdown flag, whether the collaborators `init` checks are registered, whether the containers exist, the close callback and how often it ran. */
  datatype Lifecycle = Lifecycle(shutdown: bool, publishCenter: bool, deque: bool, containers: bool,
                                 callback: bool, callbackRuns: nat)

  datatype Started = Named(name: string) | MissingParam(publishCenter: bool, deque: bool)
  datatype Stopped = Stopped | StopThrew

  /**
   * `start(name, callback)`: a running worker returns the name unchanged.
   * Otherwise the flag is cleared first, then `init` checks the publish centre
   * and deque; on success an empty name is replaced by the nonce.
   */
  function AfterStart(st: Lifecycle, name: string, nonce: string, callback: bool): (r: (Lifecycle, Started))
    requires |nonce| == 4
    ensures !st.shutdown ==> r == (st, Named(name))
    ensures st.shutdown ==> !r.0.shutdown
    ensures st.shutdown && r.1.Named? ==>
              r.0.containers && r.0.callback == callback && r.1.name != [] && (name != [] ==> r.1.name == name)
    ensures r.1.MissingParam? <==> st.shutdown && !(st.publishCenter && st.deque)
  {
    if !st.shutdown then (st, Named(name))
    else if !st.publishCenter || !st.deque then
      (st.(shutdown := false), MissingParam(!st.publishCenter, !st.deque))
    else (st.(shutdown := false, containers := true, callback := callback), Named(if IsEmpty(name) then nonce else name))
  }

  /**
   * `shutdown`: a stopped worker is left alone. Otherwise the flag is set and
   * the containers destroyed, which throws when they were never created; the
   * callback runs once after a clean teardown.
   */
  function AfterShutdown(st: Lifecycle): (r: (Lifecycle, Stopped))
    ensures st.shutdown ==> r == (st, Stopped)
    ensures r.0.shutdown
    ensures !st.shutdown ==> (r.1 == StopThrew <==> !st.containers)
    ensures r.0.callbackRuns == st.callbackRuns + (if !st.shutdown && st.containers && st.callback then 1 else 0)
  {
    if st.shutdown then (st, Stopped)
    else if !st.containers then (st.(shutdown := true), StopThrew)
    else (st.(shutdown := true, callbackRuns := st.callbackRuns + if st.callback then 1 else 0), Stopped)
  }

  /** A second `start` and a second `shutdown` change nothing. */
  lemma LifecycleIdempotent(st: Lifecycle, name: string, again: string, nonce: string, callback: bool)
    requires |nonce| == 4
    ensures var once := AfterStart(st, name, nonce, callback).0;
            AfterStart(once, again, nonce, callback) == (once, Named(again))
    ensures var once := AfterShutdown(st).0;
            AfterShutdown(once) == (once, Stopped)
  {
  }

  /** As written: a `start` refused for a missing deque leaves the worker marked as running, so the next `start` does nothing and `shutdown` throws. */
  lemma FailedStartSticks(st: Lifecycle, name: string, nonce: string, callback: bool)
    requires |nonce| == 4 && st.shutdown && !st.deque && !st.containers
    ensures var failed := AfterStart(st, name, nonce, callback);
            && failed.1.MissingParam?
            && AfterStart(failed.0, name, nonce, callback) == (failed.0, Named(name))
            && !failed.0.containers
            && AfterShutdown(failed.0).1 == StopThrew
  {
  }

  /** `start` as intended: the flag is cleared only once `init` has succeeded. */
  function FixedStart(st: Lifecycle, name: string, nonce: string, callback: bool): (r: (Lifecycle, Started))
    requires |nonce| == 4
    ensures r.1.MissingParam? ==> r.0 == st
    ensures !r.0.shutdown ==> r.0.containers || !st.shutdown
    ensures st.shutdown && st.publishCenter && st.deque ==> r == AfterStart(st, name, nonce, callback)
  {
    if st.shutdown && (!st.publishCenter || !st.deque) then (st, MissingParam(!st.publishCenter, !st.deque))
    else AfterStart(st, name, nonce, callback)
  }

  /** As intended, a worker that is marked as running always has its containers, so `shutdown` never throws after any `start`. */
  lemma FixedStartKeepsRunningReady(st: Lifecycle, name: string, nonce: string, callback: bool)
    requires |nonce| == 4 && (st.shutdown || st.containers)
    ensures var r := FixedStart(st, name, nonce, callback).0;
            (r.shutdown || r.containers) && AfterShutdown(r).1 == Stopped
  {
  }

  /** `MvcDataworker`: the lifecycle flags and the deque it drains. */
  class MvcDataworker {
    var shutdown: bool
    var hasPublishCenter: bool
    var hasDeque: bool
    var containers: bool
    var callback: bool
    var callbackRuns: nat
    var deque: seq<ProtocolData>
    /** The frames handed to the worker pool, with their connections, in order. */
    var submitted: seq<(Datagram, ChannelInfo)>

    ghost function State(): Lifecycle
      reads this
    {
      Lifecycle(shutdown, hasPublishCenter, hasDeque, containers, callback, callbackRuns)
    }

    /** A new worker is shut down, with the collaborators of its configuration registered. */
    constructor (hasPublishCenter: bool, deque: Option<seq<ProtocolData>>)
      ensures State() == Lifecycle(true, hasPublishCenter, deque.Some?, false, false, 0)
      ensures this.deque == (if deque.Some? then deque.value else []) && submitted == []
    {
      shutdown := true;
      this.hasPublishCenter := hasPublishCenter;
      hasDeque := deque.Some?;
      containers := false;
      callback := false;
      callbackRuns := 0;
      this.deque := if deque.Some? then deque.value else [];
      submitted := [];
    }

    method Start(name: string, nonce: string, callback: bool) returns (started: Started)
      requires |nonce| == 4
      modifies this
      ensures (State(), started) == AfterStart(old(State()), name, nonce, callback)
      ensures deque == old(deque) && submitted == old(submitted)
    {
      if !shutdown {
        return Named(name);
      }
      shutdown := false;
      if !hasPublishCenter || !hasDeque {
        return MissingParam(!hasPublishCenter, !hasDeque);
      }
      containers := true;
      this.callback := callback;
      started := Named(if IsEmpty(name) then nonce else name);
    }

    method Shutdown() returns (stopped: Stopped)
      modifies this
      ensures (State(), stopped) == AfterShutdown(old(State()))
      ensures deque == old(deque) && submitted == old(submitted)
    {
      if shutdown {
        return Stopped;
      }
      shutdown := true;
      if !containers {
        return StopThrew;
      }
      if callback {
        callbackRuns := callbackRuns + 1;
      }
      return Stopped;
    }

    /** One `read`: takes the head of the deque, if any, and submits it when it is an application frame. */
    method Read()
      modifies this
      ensures State() == old(State())
      ensures deque == ReadOne(old(deque)).0
      ensures submitted == old(submitted) + (if ReadOne(old(deque)).1.Some? then [ReadOne(old(deque)).1.value] else [])
    {
      if deque == [] {
        return;
      }
      var pd := deque[0];
      deque := deque[1..];
      var datagram := Decode(pd.data);
      if datagram.Some? && Worker(datagram.value.kind as int) {
        submitted := submitted + [(datagram.value, pd.channelInfo)];
      }
    }

    /** The work loop while the deque has frames: every application frame is submitted, in deque order, and nothing else. */
    method Drain()
      modifies this
      ensures State() == old(State()) && deque == []
      ensures submitted == old(submitted) + Admitted(old(deque))
    {
      while deque != []
        invariant State() == old(State())
        invariant submitted + Admitted(deque) == old(submitted) + Admitted(old(deque))
        decreases |deque|
      {
        ghost var before := deque;
        Read();
        assert Admitted(before) == (if ReadOne(before).1.Some? then [ReadOne(before).1.value] else []) + Admitted(deque);
      }
    }
  }
}
