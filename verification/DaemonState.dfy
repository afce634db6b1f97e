/**
 The daemon as a state machine: client slots, nodes, descriptors and the epoll set, and one step
 per event of the loop in wlblurd/src/main.c. What the environment decides comes with the event.
 */
module DaemonState {
  import opened BlurParams
  import opened CTypes
  import opened Wrappers
  import opened Protocol
  import opened Kernel
  import opened NodeList
  import opened Gpu
  import opened Layers
  import opened Kawase
  import opened BlurContext
  import opened Config
  import Dmabuf
  import PresetTable

  const MAX_CLIENTS := 64

  // ----- replies -----

  datatype Status = Success | InvalidNode | InvalidParams | RenderFailed | OutOfMemory

  /** The replies; `Refused` is sent with nothing but its status filled in. */
  datatype Response =
    | Plain(status: Status)
    | Created(id: uint32)
    | Rendered(output: Dmabuf.Attribs)
    | Refused

  /** What was handed to sendmsg: to which client, and the texture behind the descriptor that went along. */
  datatype Sent = Sent(to: int32, response: Response, buffer: Option<nat>)

  // ----- state -----

  datatype Slot = Slot(fd: int32, id: uint32, active: bool)

  /** A slot of the zeroed static table, and one that a client has left. */
  const UNUSED_SLOT := Slot(0, 0, false)
  const FREE_SLOT := Slot(-1, 0, false)

  datatype State = State(
    nodes: seq<Node>, nextNode: uint32,
    clients: seq<Slot>, nextClient: uint32,
    open: set<int32>, watched: set<int32>,
    settings: Settings, hasContext: bool,
    pool: View,                // framebuffers and textures of the blur context
    sent: seq<Sent>,           // every reply so far
    decisions: seq<Decision>,  // what the kernel decided so far, and which allocations it granted
    allocations: seq<bool>)

  /** The first free slot, and the first active one of a descriptor; the length if there is none. */
  function FreeSlot(clients: seq<Slot>): (i: nat)
    ensures i <= |clients|
    ensures i < |clients| ==> !clients[i].active
    ensures forall k | 0 <= k < i :: clients[k].active
  {
    if clients == [] then 0
    else if !clients[0].active then 0
    else 1 + FreeSlot(clients[1..])
  }

  predicate Holds(slot: Slot, fd: int32) {
    slot.active && slot.fd == fd
  }

  function SlotOf(clients: seq<Slot>, fd: int32): (i: nat)
    ensures i <= |clients|
    ensures i < |clients| ==> Holds(clients[i], fd)
    ensures forall k | 0 <= k < i :: !Holds(clients[k], fd)
  {
    if clients == [] then 0
    else if Holds(clients[0], fd) then 0
    else 1 + SlotOf(clients[1..], fd)
  }

  // ----- events -----

  const NO_POOL := View({}, {}, {}, map[], [], Capabilities(false, false, false))

  /** How a call of wlblur_apply_blur went: what it exported, the blur inside it, and what it left. */
  datatype Blur = Blur(output: Option<Dmabuf.Attribs>, call: Call, pool: View)

  const NO_BLUR := Blur(None, Call(Rejected, 0, Job(0, 0, BUILTIN)), NO_POOL)

  datatype Event =
    | Accept(newFd: int32, added: bool)                               // newFd < 0: accept failed
    | HangUp(fd: int32)
    | Data(fd: int32, message: Message, memory: bool, blur: Blur)
    | ReloadDone(loaded: Option<Settings>, allocations: seq<bool>)

  /** accept, epoll_ctl and client_register; an id of 0 is taken for a failure. */
  function AcceptStep(before: State, newFd: int32, added: bool): State {
    var i := FreeSlot(before.clients);
    var s := before.(decisions := before.decisions + [Connected(newFd)] + if newFd < 0 then [] else [Added(added)]);
    if newFd < 0 || !added then s
    else if i == |s.clients| then s.(watched := s.watched - {newFd})
    else
      var t := s.(clients := s.clients[i := Slot(newFd, s.nextClient, true)], nextClient := NextId(s.nextClient));
      if s.nextClient == 0 then t.(watched := s.watched - {newFd})
      else t.(open := s.open + {newFd}, watched := s.watched + {newFd})
  }

  /** EPOLL_CTL_DEL and client_unregister */
  function HangUpStep(s: State, fd: int32): State {
    var i := SlotOf(s.clients, fd);
    var t := s.(watched := s.watched - {fd});
    if i == |s.clients| then t
    else t.(nodes := Others(s.nodes, s.clients[i].id), clients := s.clients[i := FREE_SLOT], open := s.open - {fd})
  }

  function RenderParams(s: State, r: Request): Params
    requires |s.settings.presets| == PresetTable.BUCKETS
  {
    if r.usePreset != 0 && r.presetName != [] then Resolve(Some(s.settings), Some(r.presetName), None) else r.params
  }

  function InputAttribs(r: Request, inputFd: int32): Dmabuf.Attribs {
    var none := Dmabuf.Plane(0, 0, 0);
    Dmabuf.Attribs(ToInt32(r.width), ToInt32(r.height), r.format, r.modifier, 1,
                   [Dmabuf.Plane(inputFd, r.offset, r.stride), none, none, none])
  }

  // ----- a render by the fields of its request -----

  /** The buffer a request describes, as a driver reads it: one plane, with the modifier unless it is invalid. */
  ghost predicate OfRequest(r: Request, inputFd: int32, image: Image) {
    exists list: seq<int32> ::
      && image == Imported(list)
      && var modifier := if r.modifier == 0x00FF_FFFF_FFFF_FFFF then None else Some(r.modifier);
         Dmabuf.Decode(list)
         == Dmabuf.ReadImage(ToInt32(r.width), ToInt32(r.height), r.format,
                             [Dmabuf.ReadPlane(inputFd, r.offset, r.stride, modifier)])
  }

  /** The parameters a request is rendered with: its own, or the named preset, the defaults, the built-in ones. */
  predicate AskedFor(s: State, r: Request, p: Params)
    requires |s.settings.presets| == PresetTable.BUCKETS
  {
    if r.usePreset == 0 || r.presetName == [] then p == r.params
    else
      match PresetTable.Lookup(s.settings.presets, r.presetName)
      case Some(preset) => p == preset
      case None =>
        if s.settings.defaults.Some? then p == s.settings.defaults.value
        else p == Params(Kawase, 3, 5.0, 1.0, 1.0, 1.1, 0.02, 0.0, 0.0, 0.0, 0.0, 0.0, 0.0)
  }

  /** The image is the blur of the request's own buffer, at the request's size, with the parameters it asks for. */
  ghost predicate Shows(s: State, r: Request, inputFd: int32, image: Image)
    requires |s.settings.presets| == PresetTable.BUCKETS
  {
    exists p, source ::
      && AskedFor(s, r, p) && OfRequest(r, inputFd, source)
      && Blurred(ToInt32(r.width), ToInt32(r.height), p, source, image)
  }

  lemma InputIsOfRequest(r: Request, inputFd: int32)
    ensures OfRequest(r, inputFd, ImageOf(InputAttribs(r, inputFd)))
  {
    var input := InputAttribs(r, inputFd);
    var list := Dmabuf.Encode(input);
    Dmabuf.RoundTrip(input);
    assert Dmabuf.MeantPlanes(input, 1) == [];
    assert ImageOf(input) == Imported(list);
  }

  lemma PipelineShows(s: State, r: Request, inputFd: int32)
    requires |s.settings.presets| == PresetTable.BUCKETS
    requires Job(ToInt32(r.width), ToInt32(r.height), RenderParams(s, r)).Valid()
    ensures Shows(s, r, inputFd, Job(ToInt32(r.width), ToInt32(r.height), RenderParams(s, r)).Pipeline(
                                     ImageOf(InputAttribs(r, inputFd)))) == true
  {
    var p, source := RenderParams(s, r), ImageOf(InputAttribs(r, inputFd));
    InputIsOfRequest(r, inputFd);
    PipelineIsBlurred(Job(ToInt32(r.width), ToInt32(r.height), p), source);
    assert AskedFor(s, r, p);
  }

  /** What a render leaves in the texture it returns. */
  lemma BlurShows(s: State, r: Request, inputFd: int32, open: set<int32>, blur: Blur)
    requires |s.settings.presets| == PresetTable.BUCKETS && Blurs(s, r, inputFd, open, blur) && blur.output.Some?
    ensures Shows(s, r, inputFd, Sample(blur.pool.memory, blur.call.texture)) == true
  {
    PipelineShows(s, r, inputFd);
  }

  predicate Owns(s: State, client: uint32, id: uint32) {
    FindNode(s.nodes, id).Some? && FindNode(s.nodes, id).value.client == client
  }

  /** Whether a request gets as far as wlblur_apply_blur. */
  predicate ReachesBlur(s: State, client: uint32, r: Request, inputFd: int32) {
    r.op == OP_RENDER_BLUR && inputFd >= 0 && Owns(s, client, r.nodeId) && s.hasContext
  }

  function Reply(s: State, client: uint32, r: Request, inputFd: int32, memory: bool, blur: Blur): Response {
    if r.op == OP_CREATE_NODE then
      if CountOf(s.nodes, client) >= MAX_NODES_PER_CLIENT || !memory || s.nextNode == 0 then Plain(OutOfMemory)
      else Created(s.nextNode)
    else if r.op == OP_DESTROY_NODE then
      Plain(if Owns(s, client, r.nodeId) then Success else InvalidNode)
    else if r.op == OP_RENDER_BLUR && inputFd >= 0 then RenderReply(s, client, r, blur)
    else Refused
  }

  function RenderReply(s: State, client: uint32, r: Request, blur: Blur): Response {
    if !Owns(s, client, r.nodeId) then Plain(InvalidNode)
    else if s.hasContext && blur.output.Some? then Rendered(blur.output.value)
    else Plain(RenderFailed)
  }

  /** The descriptors of an exported buffer that are never closed: all but the first plane's. */
  ghost function Leaked(output: Option<Dmabuf.Attribs>): set<int32> {
    match output
    case None => {}
    case Some(a) => if |Dmabuf.HeldFds(a)| <= 1 then {} else Fds(Dmabuf.HeldFds(a)[1..])
  }

  ghost function RequestStep(s: State, client: uint32, r: Request, inputFd: int32, memory: bool, blur: Blur): State {
    if r.op == OP_CREATE_NODE && CountOf(s.nodes, client) < MAX_NODES_PER_CLIENT then
      var t := s.(allocations := s.allocations + [memory]);
      if !memory then t
      else
        t.(nodes := [Node(s.nextNode, client, ToInt32(r.width), ToInt32(r.height), r.params)] + s.nodes,
           nextNode := NextId(s.nextNode))
    else if r.op == OP_DESTROY_NODE && Owns(s, client, r.nodeId) then
      s.(nodes := RemoveId(s.nodes, r.nodeId))
    else if ReachesBlur(s, client, r, inputFd) then
      s.(pool := blur.pool)
    else s
  }

  /** Whether a message is dispatched at all, and for whom. */
  predicate Dispatched(s: State, fd: int32, m: Message) {
    m.request.Some? && m.request.value.version == PROTOCOL_VERSION && SlotOf(s.clients, fd) < |s.clients|
  }

  /** The texture whose buffer goes out with a reply: the first plane's descriptor shows it. */
  function BufferSent(blur: Blur): Option<nat> {
    if blur.output.Some? && blur.output.value.planes[0].fd >= 0 then Some(blur.call.texture) else None
  }

  /** The state with a message just received. */
  ghost function Hearing(s: State, m: Message): State {
    s.(open := s.open + Fds(Carried(m)), decisions := s.decisions + [Heard(m)])
  }

  /** What the reply and the closes make of the state after a request: only what leaks is open besides. */
  ghost function Finished(served: State, open: set<int32>, m: Message, fd: int32, response: Response,
      blur: Blur): State {
    served.(open := open + Fds([m.extraFd]) + Leaked(blur.output),
            sent := served.sent + [Sent(fd, response, BufferSent(blur))])
  }

  /** A message: heard, and if it is dispatched served and answered once. */
  ghost function DataStep(s: State, fd: int32, m: Message, memory: bool, blur: Blur): State {
    if !Dispatched(s, fd, m) then Hearing(s, m).(open := s.open + Fds([m.extraFd]))
    else
      var client, r := s.clients[SlotOf(s.clients, fd)].id, m.request.value;
      Finished(RequestStep(Hearing(s, m), client, r, m.inputFd, memory, blur), s.open, m, fd,
               Reply(s, client, r, m.inputFd, memory, blur), blur)
  }

  ghost function Step(s: State, ev: Event): State {
    match ev
    case Accept(newFd, added) => AcceptStep(s, newFd, added)
    case HangUp(fd) => HangUpStep(s, fd)
    case Data(fd, m, memory, blur) => DataStep(s, fd, m, memory, blur)
    case ReloadDone(loaded, allocations) =>
      s.(settings := if loaded.Some? then loaded.value else s.settings, allocations := s.allocations + allocations)
  }

  /** What wlblur_apply_blur guarantees: a blur of the request's buffer, exported into new descriptors. */
  ghost predicate Blurs(s: State, r: Request, inputFd: int32, open: set<int32>, blur: Blur) {
    var input := InputAttribs(r, inputFd);
    && |s.settings.presets| == PresetTable.BUCKETS
    && blur.call.job == Job(input.width, input.height, RenderParams(s, r))
    && ApplyStep(s.pool, blur.call, ImageOf(input), blur.pool)
    && Exactly(s.pool, input, RenderParams(s, r), blur.call, blur.output.Some?)
    && (blur.output.Some? ==>
          && blur.call.exit.Done?
          && 1 <= blur.output.value.numPlanes <= 4
          && blur.output.value.width == ToInt32(r.width) && blur.output.value.height == ToInt32(r.height)
          && NewDescriptors(Dmabuf.HeldFds(blur.output.value), open))
  }

  ghost predicate BlurFits(s: State, client: uint32, r: Request, inputFd: int32, open: set<int32>, blur: Blur) {
    if ReachesBlur(s, client, r, inputFd) then Blurs(s, r, inputFd, open, blur) else blur == NO_BLUR
  }

  /** What the kernel and the library guarantee about an event. */
  ghost predicate Possible(s: State, ev: Event) {
    match ev
    case Accept(newFd, added) => newFd < 0 || newFd !in s.open
    case HangUp(fd) => true
    case Data(fd, m, memory, blur) =>
      && NewDescriptors(Carried(m), s.open)
      && if Dispatched(s, fd, m)
         then BlurFits(s, s.clients[SlotOf(s.clients, fd)].id, m.request.value, m.inputFd,
              s.open + Fds(Carried(m)), blur)
         else blur == NO_BLUR
    case ReloadDone(loaded, _) => loaded.Some? ==> CleanSettings(loaded.value)
  }
}
