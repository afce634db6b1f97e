/** Request handling (wlblurd/src/ipc_protocol.c): dispatch, rendering, and every descriptor closed. */
module Requests {
  import opened BlurParams
  import opened CTypes
  import opened Wrappers
  import opened Protocol
  import opened Kernel
  import opened Gpu
  import opened Kawase
  import opened BlurContext
  import opened Config
  import opened DaemonState
  import opened Connections
  import Dmabuf
  import PresetTable

  /** All descriptors of an exported buffer. */
  ghost function Exported(output: Option<Dmabuf.Attribs>): set<int32> {
    match output case None => {} case Some(a) => Fds(Dmabuf.HeldFds(a))
  }

  /** The first plane's descriptor, which goes out with the reply. */
  function FirstFd(output: Option<Dmabuf.Attribs>): int32 {
    match output case None => -1 case Some(a) => a.planes[0].fd
  }

  /** Closing what was read and what was sent leaves a second descriptor and the further planes. */
  lemma ClosedAgain(open: set<int32>, m: Message, output: Option<Dmabuf.Attribs>)
    requires NewDescriptors(Carried(m), open)
    requires output.Some? ==>
               1 <= output.value.numPlanes <= 4
                   && NewDescriptors(Dmabuf.HeldFds(output.value), open + Fds(Carried(m)))
    ensures open + Fds(Carried(m)) + Exported(output) - Fds([m.inputFd]) - Fds([FirstFd(output)])
            == open + Fds([m.extraFd]) + Leaked(output)
    ensures m.inputFd >= 0 ==> m.inputFd in Fds(Carried(m)) && m.inputFd != FirstFd(output)
    ensures FirstFd(output) >= 0 ==> FirstFd(output) in Exported(output)
  {
    assert Carried(m)[0] == m.inputFd && Carried(m)[1] == m.extraFd;
    assert Fds(Carried(m)) == Fds([m.inputFd]) + Fds([m.extraFd]);
    if output.Some? {
      var held := Dmabuf.HeldFds(output.value);
      assert held == [held[0]] + held[1..];
      assert Fds(held) == Fds([held[0]]) + Fds(held[1..]);
      assert held[0] == FirstFd(output) && held[0] in held;
      assert forall f | f in held[1..] :: f in held && (f >= 0 ==> f != held[0]);
    }
  }

  /** The descriptor that goes out shows what all of them show. */
  lemma FirstShows(blur: Blur, shows: map<int32, nat>)
    requires blur.output.Some? ==>
               && 1 <= blur.output.value.numPlanes <= 4
               && AllShow(Dmabuf.HeldFds(blur.output.value), shows, blur.call.texture)
    ensures var fd := FirstFd(blur.output);
            BufferSent(blur) == if fd >= 0 && fd in shows then Some(shows[fd]) else None
  {
    if blur.output.Some? {
      assert FirstFd(blur.output) == Dmabuf.HeldFds(blur.output.value)[0];
    }
  }

  class Handler {
    const table: Table
    const process: Process
    const context: Context?

    ghost function Repr(): set<object>
      reads if context == null then {} else {context.renderer.pool}
    {
      {process} + if context == null then {} else context.Repr() + context.renderer.pool.Members()
    }

    ghost predicate ContextOk()
      reads if context == null then {} else context.Repr()
    {
      context != null ==> context.Valid() && context.process == process
    }

    constructor (table: Table, context: Context?)
      requires context != null ==> context.Valid() && context.process == table.process
      ensures this.table == table && this.process == table.process && this.context == context
      ensures ContextOk()
    {
      this.table, this.process, this.context := table, table.process, context;
    }

    /** Nodes and framebuffers are joined by new ones only. */
    twostate predicate NewOnly()
      reads table.nodes
      reads if context == null then {} else {context.renderer.pool}
    {
      && (forall n | n in table.nodes.Heap() :: n in old(table.nodes.Heap()) || fresh(n))
      && (context != null ==>
            forall f | f in context.renderer.pool.Members() :: f in old(context.renderer.pool.Members()) || fresh(f))
    }

    /** The parameters of a render request: a named preset, or those sent along. */
    method ParamsFor(r: Request, config: DaemonConfig) returns (params: Params)
      requires config.Valid()
      ensures params == if r.usePreset != 0 && r.presetName != []
                        then Resolve(Some(config.View()), Some(r.presetName), None) else r.params
    {
      if r.usePreset != 0 && r.presetName != [] {
        params := config.ResolveName(r.presetName);
      } else {
        params := r.params;
      }
    }

    /** Framebuffers and textures of the context. */
    ghost function Pool(): View
      reads if context == null then {}
            else {context.renderer.pool, context.renderer.gpu} + context.renderer.pool.Members()
    {
      if context == null then NO_POOL else context.Now()
    }

    twostate lemma PoolSame()
      requires context != null ==>
                 && unchanged(context.renderer.pool) && unchanged(context.renderer.gpu)
                 && forall f | f in old(context.renderer.pool.Members()) :: f.inUse == old(f.inUse)
      ensures Pool() == old(Pool())
    {
      if context != null {
        assert context.renderer.pool.Busy() == old(context.renderer.pool.Busy());
      }
    }

    /** Objects of different classes are different: the list is no part of what a blur changes. */
    lemma NodesApart()
      ensures table.nodes.Heap() !! Repr()
    {
      if context != null {
        forall n | n in table.nodes.Heap()
          ensures n as object !in context.renderer.pool.Members()
        {
        }
      }
    }

    lemma TableApart()
      ensures table as object !in Repr() && table.nodes as object !in Repr() && table.clients as object !in Repr()
    {
    }

    /** The call of wlblur_apply_blur, which leaves the tables alone. */
    method CallBlur(input: Dmabuf.Attribs, params: Params)
      returns (ok: bool, attribs: Dmabuf.Attribs, ghost call: Call)
      requires context != null && ContextOk() && table.process == process
      modifies context`lastError, context.renderer.pool, context.renderer.pool.slots, context.renderer.pool.Members()
      modifies context.gpu, process`open, process`shows
      ensures NewOnly()
      ensures ContextOk() == true && table.clients[..] == old(table.clients[..])
              && table.nodes.Nodes() == old(table.nodes.Nodes())
      ensures process.open == old(process.open) + Exported(if ok then Some(attribs) else None)
      ensures process.watched == old(process.watched) && process.decisions == old(process.decisions)
      ensures process.allocations == old(process.allocations)
      ensures call.job == Job(input.width, input.height, params)
      ensures ApplyStep(old(Pool()), call, ImageOf(input), Pool()) == true
      ensures Exactly(old(Pool()), input, params, call, ok) == true
      ensures ok ==>
                && call.exit.Done? && 1 <= attribs.numPlanes <= 4
                && attribs.width == input.width && attribs.height == input.height
                && NewDescriptors(Dmabuf.HeldFds(attribs), old(process.open))
                && AllShow(Dmabuf.HeldFds(attribs), process.shows, call.texture)
                && context.gpu.reports == old(context.gpu.reports) + Dmabuf.ReportsOf(attribs)
    {
      ok, attribs, call := context.ApplyBlur(input, params);
    }

    /** What it means for the state. */
    method BlurOwned(r: Request, inputFd: int32, params: Params, ghost s: State)
      returns (ok: bool, attribs: Dmabuf.Attribs, ghost blur: Blur)
      requires context != null && ContextOk() && table.Valid() && table.process == process
      requires s == table.Abs(s.settings, true, Pool())
      requires |s.settings.presets| == PresetTable.BUCKETS && params == RenderParams(s, r)
      modifies Repr()
      ensures NewOnly()
      ensures ContextOk() && table.Valid()
      ensures blur.output == if ok then Some(attribs) else None
      ensures table.Abs(s.settings, true, Pool()) == s.(open := s.open + Exported(blur.output), pool := blur.pool)
      ensures Blurs(s, r, inputFd, s.open, blur) == true
      ensures process.Behind(FirstFd(blur.output)) == BufferSent(blur)
      ensures ok ==>
                1 <= attribs.numPlanes <= 4
                && context.gpu.reports == old(context.gpu.reports) + Dmabuf.ReportsOf(attribs)
    {
      NodesApart();
      TableApart();
      ghost var call: Call;
      ok, attribs, call := CallBlur(InputAttribs(r, inputFd), params);
      blur := Blur(if ok then Some(attribs) else None, call, Pool());
      FirstShows(blur, process.shows);
      ItBlurs(s, r, inputFd, blur);
    }

    lemma ItBlurs(s: State, r: Request, inputFd: int32, blur: Blur)
      requires |s.settings.presets| == PresetTable.BUCKETS
      requires var input, params := InputAttribs(r, inputFd), RenderParams(s, r);
               && blur.call.job == Job(input.width, input.height, params)
               && ApplyStep(s.pool, blur.call, ImageOf(input), blur.pool) == true
               && Exactly(s.pool, input, params, blur.call, blur.output.Some?) == true
      requires blur.output.Some? ==>
                 && blur.call.exit.Done? && 1 <= blur.output.value.numPlanes <= 4
                 && blur.output.value.width == ToInt32(r.width) && blur.output.value.height == ToInt32(r.height)
                 && NewDescriptors(Dmabuf.HeldFds(blur.output.value), s.open)
      ensures Blurs(s, r, inputFd, s.open, blur) == true
    {
    }

    /** handle_render_blur, with the parameters the request resolves to. */
    method HandleRender(client: uint32, r: Request, inputFd: int32, params: Params, ghost s: State)
      returns (response: Response, outputFd: int32, ghost blur: Blur)
      requires ContextOk() && table.Valid() && table.process == process
      requires s == table.Abs(s.settings, context != null, Pool()) && |s.settings.presets| == PresetTable.BUCKETS
      requires r.op == OP_RENDER_BLUR && inputFd >= 0 && params == RenderParams(s, r)
      modifies Repr()
      ensures NewOnly()
      ensures ContextOk() && table.Valid()
      ensures table.Abs(s.settings, s.hasContext, Pool())
              == s.(open := s.open + Exported(blur.output),
                    pool := if ReachesBlur(s, client, r, inputFd) then blur.pool else s.pool)
      ensures response == RenderReply(s, client, r, blur)
      ensures outputFd == FirstFd(blur.output) && process.Behind(outputFd) == BufferSent(blur)
      ensures BlurFits(s, client, r, inputFd, s.open, blur) == true
      ensures response.Rendered? ==>
                && context != null && 1 <= response.output.numPlanes <= 4
                && context.gpu.reports == old(context.gpu.reports) + Dmabuf.ReportsOf(response.output)
                && response.output.width == ToInt32(r.width) && response.output.height == ToInt32(r.height)
                && Shows(s, r, inputFd, Sample(Pool().memory, blur.call.texture)) == true
    {
      var owns := table.OwnsNode(client, r.nodeId);
      if !owns {
        return Plain(InvalidNode), -1, NO_BLUR;
      }
      if context == null {
        return Plain(RenderFailed), -1, NO_BLUR;
      }
      var ok, attribs;
      ok, attribs, blur := BlurOwned(r, inputFd, params, s);
      if ok {
        BlurShows(s, r, inputFd, s.open, blur);
      }
      response := if ok then Rendered(attribs) else Plain(RenderFailed);
      outputFd := if ok then attribs.planes[0].fd else -1;
    }

    /** The objects a request may change. */
    ghost function All(): set<object>
      reads table.nodes
      reads if context == null then {} else {context.renderer.pool}
    {
      Repr() + {table.nodes} + table.nodes.Heap()
    }

    /** The two operations that only touch the node registry. */
    method NodeOperation(client: uint32, r: Request, ghost inputFd: int32, ghost s: State)
      returns (response: Response, ghost memory: bool)
      requires ContextOk() && table.Valid()
      requires s == table.Abs(s.settings, context != null, Pool())
      requires r.op == OP_CREATE_NODE || r.op == OP_DESTROY_NODE
      modifies table.nodes, table.nodes.Heap(), table.process`allocations
      ensures NewOnly()
      ensures ContextOk() && table.Valid()
      ensures response == Reply(s, client, r, inputFd, memory, NO_BLUR)
      ensures table.Abs(s.settings, s.hasContext, Pool()) == RequestStep(s, client, r, inputFd, memory, NO_BLUR)
    {
      memory := true;
      NodesApart();
      TableApart();
      if r.op == OP_CREATE_NODE {
        response, memory := table.HandleCreate(client, r, s.settings, s.hasContext, s.pool);
      } else {
        response := table.HandleDestroy(client, r, s.settings, s.hasContext, s.pool);
      }
      assert Pool() == s.pool;
    }

    /** The switch over the operation; the sent descriptor is still open afterwards. */
    method Dispatch(client: uint32, r: Request, inputFd: int32, params: Params, ghost s: State)
      returns (response: Response, outputFd: int32, ghost memory: bool, ghost blur: Blur)
      requires ContextOk() && table.Valid() && table.process == process
      requires s == table.Abs(s.settings, context != null, Pool()) && |s.settings.presets| == PresetTable.BUCKETS
      requires params == RenderParams(s, r)
      modifies All()
      ensures NewOnly()
      ensures ContextOk() && table.Valid()
      ensures response == Reply(s, client, r, inputFd, memory, blur)
      ensures table.Abs(s.settings, s.hasContext, Pool())
              == RequestStep(s, client, r, inputFd, memory, blur).(open := s.open + Exported(blur.output))
      ensures outputFd == FirstFd(blur.output) && process.Behind(outputFd) == BufferSent(blur)
      ensures BlurFits(s, client, r, inputFd, s.open, blur) == true
    {
      outputFd, memory, blur := -1, true, NO_BLUR;
      if r.op == OP_CREATE_NODE || r.op == OP_DESTROY_NODE {
        response, memory := NodeOperation(client, r, inputFd, s);
      } else if r.op == OP_RENDER_BLUR {
        if inputFd < 0 {
          return Refused, -1, true, NO_BLUR;
        }
        response, outputFd, blur := HandleRender(client, r, inputFd, params, s);
      } else {
        response := Refused;
      }
    }

    method CloseIfAny(fd: int32)
      requires fd >= 0 ==> fd in process.open
      modifies process`open
      ensures process.open == old(process.open) - Fds([fd])
    {
      if fd >= 0 {
        process.Close(fd);
      }
    }

    /** A message just received plays no part in how a request is answered. */
    lemma HearingPlaysNoPart(s: State, m: Message, client: uint32, r: Request, inputFd: int32, memory: bool,
        blur: Blur)
      ensures Reply(Hearing(s, m), client, r, inputFd, memory, blur) == Reply(s, client, r, inputFd, memory, blur)
      ensures BlurFits(Hearing(s, m), client, r, inputFd, s.open + Fds(Carried(m)), blur)
              == BlurFits(s, client, r, inputFd, s.open + Fds(Carried(m)), blur)
    {
    }

    /**
     A dispatch with what was received and what was exported open besides completes the step by the
     reply and the closes.
     */
    lemma CompletesStep(s: State, fd: int32, m: Message, memory: bool, blur: Blur)
      requires Dispatched(s, fd, m) && NewDescriptors(Carried(m), s.open)
      requires BlurFits(Hearing(s, m), s.clients[SlotOf(s.clients, fd)].id, m.request.value, m.inputFd,
                        s.open + Fds(Carried(m)), blur) == true
      ensures Possible(s, Data(fd, m, memory, blur)) == true
      ensures var client := s.clients[SlotOf(s.clients, fd)].id;
              var response := Reply(s, client, m.request.value, m.inputFd, memory, blur);
              var served := RequestStep(Hearing(s, m), client, m.request.value, m.inputFd, memory, blur);
              && Reply(Hearing(s, m), client, m.request.value, m.inputFd, memory, blur) == response
              && Finished(served, s.open, m, fd, response, blur) == Step(s, Data(fd, m, memory, blur))
    {
      HearingPlaysNoPart(s, m, s.clients[SlotOf(s.clients, fd)].id, m.request.value, m.inputFd, memory, blur);
    }

    /** The reply, and then the two closes: of the received descriptor, and of the one that was sent. */
    method SendAndClose(fd: int32, response: Response, m: Message, outputFd: int32, ghost open: set<int32>,
        ghost blur: Blur, ghost served: State)
      requires ContextOk() && table.Valid() && table.process == process && NewDescriptors(Carried(m), open)
      requires blur.output.Some? ==>
                 && 1 <= blur.output.value.numPlanes <= 4
                 && NewDescriptors(Dmabuf.HeldFds(blur.output.value), open + Fds(Carried(m)))
      requires table.Abs(served.settings, served.hasContext, Pool())
               == served.(open := open + Fds(Carried(m)) + Exported(blur.output))
      requires outputFd == FirstFd(blur.output) && process.Behind(outputFd) == BufferSent(blur)
      modifies process`open, table`sent
      ensures ContextOk() && table.Valid()
      ensures table.Abs(served.settings, served.hasContext, Pool()) == Finished(served, open, m, fd, response, blur)
    {
      ClosedAgain(open, m, blur.output);
      var _ := table.Send(fd, response, outputFd);
      CloseIfAny(m.inputFd);
      CloseIfAny(outputFd);
      PoolSame();
    }

    /** A dispatched request, from the switch to the last close. */
    method Serve(fd: int32, m: Message, client: uint32, params: Params, ghost s: State)
      returns (ghost ev: Event, response: Response)
      requires ContextOk() && table.Valid() && table.process == process && |s.settings.presets| == PresetTable.BUCKETS
      requires table.Abs(s.settings, context != null, Pool()) == Hearing(s, m)
      requires Dispatched(s, fd, m) && client == s.clients[SlotOf(s.clients, fd)].id
      requires NewDescriptors(Carried(m), s.open)
      requires params == RenderParams(s, m.request.value)
      modifies All(), table`sent
      ensures NewOnly()
      ensures ContextOk() && table.Valid()
      ensures ev.Data? && ev.fd == fd && ev.message == m && Possible(s, ev) == true
      ensures table.Abs(s.settings, s.hasContext, Pool()) == Step(s, ev)
      ensures response == Reply(s, client, m.request.value, m.inputFd, ev.memory, ev.blur)
    {
      ghost var memory: bool, blur: Blur;
      var outputFd: int32;
      response, outputFd, memory, blur := Dispatch(client, m.request.value, m.inputFd, params, Hearing(s, m));
      ev := Data(fd, m, memory, blur);
      CompletesStep(s, fd, m, memory, blur);
      SendAndClose(fd, response, m, outputFd, s.open, blur,
                   RequestStep(Hearing(s, m), client, m.request.value, m.inputFd, memory, blur));
    }

    /** The checks before dispatch, and the parameters in case of a render. */
    method Prepare(fd: int32, m: Message, config: DaemonConfig) returns (client: Option<uint32>, params: Params)
      requires table.Valid() && config.Valid()
      ensures client == if m.request.Some? && m.request.value.version == PROTOCOL_VERSION
                           && SlotOf(table.clients[..], fd) < MAX_CLIENTS
                        then Some(table.clients[SlotOf(table.clients[..], fd)].id) else None
      ensures client.Some? ==>
                params == if m.request.value.usePreset != 0 && m.request.value.presetName != []
                          then Resolve(Some(config.View()), Some(m.request.value.presetName), None)
                          else m.request.value.params
    {
      client, params := None, BUILTIN;
      if m.request.None? || m.request.value.version != PROTOCOL_VERSION {
        return;
      }
      var i := table.FindClient(fd);
      if i == MAX_CLIENTS {
        return;
      }
      client := Some(table.clients[i].id);
      params := ParamsFor(m.request.value, config);
    }

    /** An undispatched message is dropped, with its descriptor; any other is served. */
    method Answer(fd: int32, m: Message, client: Option<uint32>, params: Params, ghost s: State)
      returns (ghost ev: Event, reply: Option<Response>)
      requires ContextOk() && table.Valid() && table.process == process && |s.settings.presets| == PresetTable.BUCKETS
      requires table.Abs(s.settings, context != null, Pool()) == Hearing(s, m)
      requires NewDescriptors(Carried(m), s.open)
      requires client == if Dispatched(s, fd, m) then Some(s.clients[SlotOf(s.clients, fd)].id) else None
      requires client.Some? ==> params == RenderParams(s, m.request.value)
      modifies All(), table`sent
      ensures NewOnly()
      ensures ContextOk() && table.Valid()
      ensures ev.Data? && ev.fd == fd && ev.message == m && Possible(s, ev) == true
      ensures table.Abs(s.settings, s.hasContext, Pool()) == Step(s, ev)
      ensures if client.None? then reply == None
              else reply == Some(Reply(s, client.value, m.request.value, m.inputFd, ev.memory, ev.blur))
    {
      if client.None? {
        CloseIfAny(m.inputFd);
        ClosedAgain(s.open, m, None);
        assert process.open == s.open + Fds([m.extraFd]);
        PoolSame();
        return Data(fd, m, true, NO_BLUR), None;
      }
      var response: Response;
      ev, response := Serve(fd, m, client.value, params, s);
      reply := Some(response);
    }

    /** The message, and whom it is from. */
    method Take(fd: int32, config: DaemonConfig, ghost s: State)
      returns (m: Message, client: Option<uint32>, params: Params)
      requires ContextOk() && table.Valid() && table.process == process && config.Valid()
      requires s == table.Abs(config.View(), context != null, Pool())
      modifies process`open, process`shows, process`decisions
      ensures ContextOk() && table.Valid() && NewDescriptors(Carried(m), s.open)
      ensures table.Abs(s.settings, context != null, Pool()) == Hearing(s, m)
      ensures client == if Dispatched(s, fd, m) then Some(s.clients[SlotOf(s.clients, fd)].id) else None
      ensures client.Some? ==> params == RenderParams(s, m.request.value)
    {
      m := process.Receive();
      PoolSame();
      assert config.View() == s.settings;
      client, params := Prepare(fd, m, config);
    }

    /** handle_client_request */
    method HandleRequest(fd: int32, config: DaemonConfig, ghost s: State)
      returns (ghost ev: Event, reply: Option<Response>)
      requires ContextOk() && table.Valid() && table.process == process && config.Valid()
      requires s == table.Abs(config.View(), context != null, Pool())
      modifies All(), table`sent
      ensures NewOnly()
      ensures ContextOk() && table.Valid()
      ensures ev.Data? && ev.fd == fd && Possible(s, ev) == true
      ensures table.Abs(s.settings, s.hasContext, Pool()) == Step(s, ev)
      ensures reply == if !Dispatched(s, fd, ev.message) then None
                       else Some(Reply(s, s.clients[SlotOf(s.clients, fd)].id, ev.message.request.value,
                                       ev.message.inputFd, ev.memory, ev.blur))
    {
      var m, client, params := Take(fd, config, s);
      ev, reply := Answer(fd, m, client, params, s);
    }
  }
}
