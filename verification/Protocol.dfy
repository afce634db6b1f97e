/** The messages of a client, as they come over the socket (wlblurd/include/protocol.h, wlblurd/src/ipc.c). */
module Protocol {
  import opened BlurParams
  import opened CTypes
  import opened Wrappers
  import PresetTable

  const PROTOCOL_VERSION: uint32 := 1

  const OP_CREATE_NODE: uint32 := 1
  const OP_DESTROY_NODE: uint32 := 2
  const OP_RENDER_BLUR: uint32 := 3

  datatype Request = Request(
    version: uint32, op: uint32, nodeId: uint32, width: uint32, height: uint32,
    format: uint32, modifier: uint64, stride: uint32, offset: uint32,
    presetName: PresetTable.Name, usePreset: uint32, params: Params)

  /**
   What recvmsg delivered: a message of the wrong size, or a request; -1 is no descriptor. The
   control buffer is padded to 24 bytes, which is room for a second descriptor that nobody reads.
   */
  datatype Message = Message(request: Option<Request>, inputFd: int32, extraFd: int32)

  /** The descriptors a message brings. */
  function Carried(m: Message): seq<int32> {
    [m.inputFd, m.extraFd]
  }
}
