/**
 * The per-request contexts of the MVC layer: `RequestContext` with its
 * `RequestWrapper` (memoised entity and input stream), and `ResponseContext`
 * with its `Response` factories.
 */
module Contexts {
  import opened Common
  import opened Wire
  import opened Dispatch

  /** A bound parameter: one of the three context kinds a handler may declare, or an entity value. */
  datatype Param = RequestContextParam | SessionParam | ResponseContextParam | Entity(token: nat)

  /** The handler's entities: the parameters with the context kinds taken out, in their original order. */
  function Entities(params: seq<Param>): (r: seq<Param>)
    ensures |r| <= |params|
    ensures forall p :: p in r <==> p in params && p.Entity?
  {
    if params == [] then []
    else (if params[0].Entity? then [params[0]] else []) + Entities(params[1..])
  }

  /** The filter distributes over concatenation, so the entities of the whole keep the order of the parts. */
  lemma {:induction false} EntitiesConcat(a: seq<Param>, b: seq<Param>)
    ensures Entities(a + b) == Entities(a) + Entities(b)
  {
    if a == [] {
      assert a + b == b;
    } else {
      assert (a + b)[1..] == a[1..] + b;
      EntitiesConcat(a[1..], b);
    }
  }

  /** Parameters that are all entities pass through unchanged. */
  lemma {:induction false} EntitiesKeepsEntities(params: seq<Param>)
    requires forall i :: 0 <= i < |params| ==> params[i].Entity?
    ensures Entities(params) == params
  {
    if params != [] {
      EntitiesKeepsEntities(params[1..]);
    }
  }

  /** The byte stream `getInputStream` hands out, with its read position. */
  class ByteStream {
    const bytes: seq<byte>
    var position: nat

    constructor (bytes: seq<byte>)
      ensures this.bytes == bytes && position == 0
    {
      this.bytes := bytes;
      position := 0;
    }
  }

  /** `RequestContext`: the request's source connection, datagram and charset, and what the pipeline binds to it. */
  class RequestContext {
    const source: string
    const datagram: Datagram
    const charset: string
    /** The bound parameters; None while they are still null. */
    var params: Option<seq<Param>>
    var session: Option<nat>
    /** The wrapper bound to this context. */
    var request: RequestWrapper?

    /** A new context, with a new wrapper bound to it. */
    constructor (source: string, datagram: Datagram, charset: string)
      ensures this.source == source && this.datagram == datagram && this.charset == charset
      ensures params == None && session == None
      ensures request != null && fresh(request) && request.context == this
              && request.entity == None && request.inputStream == null
    {
      this.source := source;
      this.datagram := datagram;
      this.charset := charset;
      params := None;
      session := None;
      request := null;
      new;
      request := new RequestWrapper(this);
    }
  }

  /** `RequestWrapper`: bound to one context; the entity array and the input stream are built on first use. */
  class RequestWrapper {
    const context: RequestContext
    var entity: Option<seq<Param>>
    var inputStream: ByteStream?

    constructor (context: RequestContext)
      ensures this.context == context && entity == None && inputStream == null
    {
      this.context := context;
      entity := None;
      inputStream := null;
    }

    /** `getSession` and `getCharset` read through to the context. */
    function Session(): (s: Option<nat>)
      reads context
      ensures s == context.session
    {
      context.session
    }

    function Charset(): (c: string)
      ensures c == context.charset
    {
      context.charset
    }

    /**
     * `getEntity`: on first use, the parameters' entities; afterwards the same
     * array, whatever the parameters have become. Null parameters throw.
     */
    method GetEntity() returns (r: Option<seq<Param>>)
      modifies this
      ensures old(entity).Some? ==> r == old(entity) && entity == old(entity)
      ensures old(entity).None? && context.params.None? ==> r == None && entity == None
      ensures old(entity).None? && context.params.Some? ==> r == Some(Entities(context.params.value)) && entity == r
      ensures inputStream == old(inputStream)
    {
      if entity.None? {
        if context.params.None? {
          return None;
        }
        entity := Some(Entities(context.params.value));
      }
      r := entity;
    }

    /** `getInputStream`: one stream over the datagram's body, created on first use and handed out again after. */
    method GetInputStream() returns (s: ByteStream)
      modifies this
      ensures old(inputStream) != null ==> s == old(inputStream)
      ensures old(inputStream) == null ==> fresh(s) && s.bytes == context.datagram.body && s.position == 0
      ensures inputStream == s && entity == old(entity)
    {
      if inputStream == null {
        inputStream := new ByteStream(context.datagram.body);
      }
      s := inputStream;
    }
  }

  /** A request's entity, asked for twice, is the same array even when the parameters changed in between. */
  method EntityMemoised(context: RequestContext, wrapper: RequestWrapper, later: seq<Param>)
    returns (first: Option<seq<Param>>, second: Option<seq<Param>>)
    requires wrapper.context == context && wrapper.entity == None && context.params.Some?
    modifies context, wrapper
    ensures first == second == Some(Entities(old(context.params.value)))
  {
    first := wrapper.GetEntity();
    context.params := Some(later);
    second := wrapper.GetEntity();
  }

  /** `ResponseContext.Response`: the handler's result; only the factories below create one. */
  class Response {
    var result: Option<Value>

    constructor Empty()
      ensures result == None
    {
      result := None;
    }

    /** `buildOk`: a response whose result is a success `BaseDTO`. */
    static method BuildOk() returns (r: Response)
      ensures fresh(r) && r.result == Some(Dto(Success, ""))
    {
      r := new Response.Empty();
      r.result := Some(Dto(Success, ""));
    }

    /** `build(result)`: a response carrying exactly the given result. */
    static method Build(result: Option<Value>) returns (r: Response)
      ensures fresh(r) && r.result == result
    {
      r := new Response.Empty();
      r.result := result;
    }
  }

  /** `ResponseContext`: a response with no result yet and no writer. */
  class ResponseContext {
    var response: Response
    var writer: Option<Interceptor>

    constructor ()
      ensures fresh(response) && response.result == None && writer == None
    {
      response := new Response.Empty();
      writer := None;
    }

    /** What the catch clauses of `accept` see of this context. */
    function View(): (v: ResponseCtx)
      reads this
      ensures v.writer == writer
    {
      ResponseCtx(writer)
    }
  }
}
