/** wlblur_apply_blur (libwlblur/src/blur_context.c): import, blur, export, and what is left behind. */
module BlurContext {
  import opened BlurParams
  import opened Gpu
  import opened Framebuffer
  import opened Kawase
  import opened PoolRuns
  import opened Kernel
  import opened CTypes
  import Dmabuf

  datatype Error = NoError | EglInit | DmabufImport | DmabufExport | InvalidParams | GlFailure

  /** What an imported buffer looks like. */
  ghost function ImageOf(input: Dmabuf.Attribs): Image {
    if 1 <= input.numPlanes <= 4 then Imported(Dmabuf.Encode(input)) else Unwritten
  }

  /** A whole call: one blur of that image as the pool sees it, and no texture left outside the pool. */
  ghost predicate ApplyStep(pre: View, call: Call, image: Image, post: View) {
    && CallStep(pre, call, post)
    && post.memory.Keys - post.owned == pre.memory.Keys - pre.owned
    && (call.exit.Done? ==> call.job.Valid() && Sample(post.memory, call.texture) == call.job.Pipeline(image))
    && (!call.exit.Rejected? ==> LiveStep(pre, call, post))
  }

  /** What gets as far as a blur, if no call of the driver goes wrong. */
  predicate Acceptable(caps: Capabilities, input: Dmabuf.Attribs, params: Params) {
    LibraryValid(params) && caps.imports && 1 <= input.numPlanes <= 4 && input.width > 0 && input.height > 0
  }

  /** With a reliable driver the blur is made exactly for what is acceptable, and exported if that is possible. */
  ghost predicate Exactly(pre: View, input: Dmabuf.Attribs, params: Params, call: Call, ok: bool) {
    pre.caps.reliable ==>
      && (call.exit.Rejected? <==> !Acceptable(pre.caps, input, params))
      && (ok <==> call.exit.Done? && pre.caps.exports)
  }

  /** The error code, with a reliable driver. */
  function ErrorOf(caps: Capabilities, input: Dmabuf.Attribs, params: Params, exit: Exit): Error {
    if !LibraryValid(params) then InvalidParams
    else if !caps.imports || !(1 <= input.numPlanes <= 4) then DmabufImport
    else if !exit.Done? then GlFailure
    else if !caps.exports then DmabufExport
    else NoError
  }

  /** A blur of a texture that exists only for the call, seen from outside the call. */
  lemma TemporaryInput(pre: View, texture: nat, image: Image, call: Call, mid: View, post: View)
    requires pre.busy <= pre.owned <= pre.memory.Keys && texture !in pre.memory
    requires BlurStep(pre.(memory := pre.memory[texture := image]), call, mid)
             && SlotsStep(pre, call, mid)
    requires !call.exit.Rejected? ==> LiveStep(pre, call, mid)
    requires call.exit.Done? ==> call.job.Valid() && mid.memory[call.texture] == call.job.Pipeline(image)
    requires post == mid.(memory := mid.memory - {texture})
    ensures ApplyStep(pre, call, image, post)
  {
    var imported := pre.(memory := pre.memory[texture := image]);
    BlurStepIsCallStep(imported, call, mid);
    assert imported.memory.Keys == pre.memory.Keys + {texture};
    assert texture in mid.memory.Keys - mid.owned;
    assert post.memory.Keys == mid.memory.Keys - {texture};
    assert mid.memory.Keys - mid.owned == imported.memory.Keys - pre.owned;
    assert post.memory.Keys - post.owned == (mid.memory.Keys - mid.owned) - {texture};
    assert forall t | t in pre.busy :: Sample(post.memory, t) == Sample(mid.memory, t);
  }

  lemma NothingDone(view: View, job: Job, image: Image)
    requires view.busy <= view.owned && |view.owned| <= POOL_SIZE && |view.slots| <= POOL_SIZE
    ensures ApplyStep(view, Call(Rejected, 0, job), image, view)
  {
  }

  class Context {
    const gpu: Driver
    const renderer: Renderer
    const process: Process
    var lastError: Error

    ghost function Repr(): set<object> {
      {this, gpu, renderer.pool, renderer.pool.slots}
    }

    ghost predicate Valid()
      reads Repr()
    {
      renderer.gpu == gpu && renderer.Valid()
    }

    ghost function Now(): View
      reads renderer.pool, renderer.pool.Members(), renderer.gpu
    {
      renderer.Now()
    }

    constructor (gpu: Driver, process: Process)
      ensures Valid() && fresh(renderer.pool) && fresh(renderer.pool.slots)
      ensures this.gpu == gpu && this.process == process && renderer.pool.fbos == []
    {
      this.gpu, this.process := gpu, process;
      renderer := new Renderer(gpu);
      lastError := NoError;
    }

    /** The checks before anything is touched: the parameters, then eglMakeCurrent. */
    method Ready(params: Params) returns (error: Error)
      ensures !LibraryValid(params) ==> error == InvalidParams
      ensures LibraryValid(params) ==> error == NoError || (error == EglInit && !gpu.caps.reliable)
    {
      if !LibraryValid(params) {
        return InvalidParams;
      }
      var current: bool := *;
      return if current || gpu.caps.reliable then NoError else EglInit;
    }

    /** The checks and the import. */
    method Begin(input: Dmabuf.Attribs, params: Params) returns (texture: nat, error: Error)
      requires Valid()
      modifies gpu`memory, gpu`images
      ensures Valid() && gpu.images == old(gpu.images)
      ensures LibraryValid(params) == (error != InvalidParams)
      ensures error == NoError || error == InvalidParams || error == EglInit || error == DmabufImport
      ensures gpu.caps.reliable ==> error != EglInit
      ensures gpu.caps.reliable && error == DmabufImport ==> !gpu.caps.imports || !(1 <= input.numPlanes <= 4)
      ensures if error != NoError then Now() == old(Now())
              else
                && gpu.caps.imports
                && 1 <= input.numPlanes <= 4 && texture != 0 && texture !in old(gpu.memory)
                && Now() == old(Now()).(memory := old(gpu.memory)[texture := ImageOf(input)])
    {
      texture := 0;
      error := Ready(params);
      if error == NoError {
        texture := Dmabuf.Import(gpu, gpu.caps.imports, input);
        error := if texture == 0 then DmabufImport else NoError;
      }
    }

    /** The export of the result, if there is one. */
    method ExportResult(blurred: nat, input: Dmabuf.Attribs, blank: Dmabuf.Attribs)
      returns (output: Dmabuf.Attribs, error: Error)
      requires Valid()
      modifies gpu`images, gpu`reports, process`open, process`shows
      ensures Valid() == true && gpu.images == old(gpu.images) && Now() == old(Now())
      ensures if blurred == 0 then error == GlFailure else error == NoError || error == DmabufExport
      ensures error == NoError ==> gpu.caps.exports
      ensures gpu.caps.reliable && error == DmabufExport ==> !gpu.caps.exports
      ensures error != NoError ==> process.open == old(process.open)
      ensures error == NoError ==> Shown(old(process.open), input, output, blurred) == true
      ensures error == NoError ==> gpu.reports == old(gpu.reports) + Dmabuf.ReportsOf(output)
    {
      if blurred == 0 {
        return blank, GlFailure;
      }
      var ok: bool;
      ok, output := Dmabuf.Export(gpu, process, gpu.caps.exports, blurred, input.width, input.height);
      error := if ok then NoError else DmabufExport;
    }

    /** The blur of the imported texture, seen as if that texture were gone already. */
    method BlurInput(texture: nat, input: Dmabuf.Attribs, params: Params, ghost pre: View)
      returns (blurred: nat, ghost call: Call)
      requires Valid() && LibraryValid(params)
      requires pre.busy <= pre.owned <= pre.memory.Keys && texture != 0 && texture !in pre.memory
      requires Now() == pre.(memory := pre.memory[texture := ImageOf(input)])
      modifies renderer.pool, renderer.pool.slots, renderer.pool.Members(), gpu`memory, gpu`draws
      ensures Valid() && renderer.pool.Grown() && texture !in renderer.pool.Owned()
      ensures call.job == Job(input.width, input.height, params) && call.texture == blurred
      ensures ApplyStep(pre, call, ImageOf(input), Now().(memory := gpu.memory - {texture})) == true
      ensures blurred != 0 <==> call.exit.Done?
      ensures call.exit.Rejected? <==> input.width <= 0 || input.height <= 0
    {
      ghost var exit: Exit;
      blurred, exit := renderer.Blur(texture, input.width, input.height, params);
      call := Call(exit, blurred, Job(input.width, input.height, params));
      TemporaryInput(pre, texture, ImageOf(input), call, Now(), Now().(memory := gpu.memory - {texture}));
    }

    /** From the import on: the input's texture is deleted on every path; `pre` is the state before the import. */
    method BlurImported(texture: nat, input: Dmabuf.Attribs, params: Params, blank: Dmabuf.Attribs, ghost pre: View)
      returns (output: Dmabuf.Attribs, error: Error, ghost call: Call)
      requires Valid() && LibraryValid(params)
      requires pre.busy <= pre.owned <= pre.memory.Keys && texture != 0 && texture !in pre.memory
      requires Now() == pre.(memory := pre.memory[texture := ImageOf(input)])
      modifies renderer.pool, renderer.pool.slots, renderer.pool.Members(), gpu, process`open, process`shows
      ensures Valid() == true && renderer.pool.Grown() && gpu.images == old(gpu.images)
      ensures call.job == Job(input.width, input.height, params)
      ensures ApplyStep(pre, call, ImageOf(input), Now()) == true
      ensures error == NoError || error == GlFailure || error == DmabufExport
      ensures call.exit.Done? <==> error != GlFailure
      ensures call.exit.Rejected? <==> input.width <= 0 || input.height <= 0
      ensures error == NoError ==> gpu.caps.exports
      ensures gpu.caps.reliable && error == DmabufExport ==> !gpu.caps.exports
      ensures error != NoError ==> process.open == old(process.open)
      ensures error == NoError ==> Shown(old(process.open), input, output, call.texture) == true
      ensures error == NoError ==> gpu.reports == old(gpu.reports) + Dmabuf.ReportsOf(output)
    {
      var blurred: nat;
      blurred, call := BlurInput(texture, input, params, pre);
      ghost var mid := Now();
      output, error := ExportResult(blurred, input, blank);
      gpu.DeleteTexture(texture);
      assert Now() == mid.(memory := mid.memory - {texture});
      StillOwned(mid, texture);
    }

    static lemma StillOwned(view: View, texture: nat)
      requires view.owned <= view.memory.Keys && texture !in view.owned
      ensures view.owned <= (view.memory - {texture}).Keys
    {
    }

    /** The output has the input's size, and its planes hold what was newly opened to show the texture. */
    ghost predicate Shown(open: set<int32>, input: Dmabuf.Attribs, output: Dmabuf.Attribs, texture: nat)
      reads process
    {
      && output.width == input.width && output.height == input.height && 1 <= output.numPlanes <= 4
      && NewDescriptors(Dmabuf.HeldFds(output), open)
      && process.open == open + Fds(Dmabuf.HeldFds(output))
      && AllShow(Dmabuf.HeldFds(output), process.shows, texture)
    }

    /** wlblur_apply_blur */
    method ApplyBlur(input: Dmabuf.Attribs, params: Params)
      returns (ok: bool, output: Dmabuf.Attribs, ghost call: Call)
      requires Valid()
      modifies this`lastError, renderer.pool, renderer.pool.slots, renderer.pool.Members()
      modifies gpu, process`open, process`shows
      // every image is destroyed, the imported texture is gone, and only the pool's textures are new
      ensures Valid() && renderer.pool.Grown() && gpu.images == old(gpu.images)
      ensures call.job == Job(input.width, input.height, params)
      ensures ApplyStep(old(Now()), call, ImageOf(input), Now()) == true
      ensures Exactly(old(Now()), input, params, call, ok)
      ensures gpu.caps.reliable ==> lastError == ErrorOf(gpu.caps, input, params, call.exit)
      ensures ok <==> lastError == NoError
      ensures LibraryValid(params) == (lastError != InvalidParams)
      ensures call.exit.Done? <==> lastError == NoError || lastError == DmabufExport
      ensures call.exit.Done? ==> 1 <= input.numPlanes <= 4
      // on success the output holds what was newly opened to show the result, otherwise nothing was
      ensures !ok ==> process.open == old(process.open)
      ensures ok ==> Shown(old(process.open), input, output, call.texture) == true
      // and repeats what the driver reported about it
      ensures ok ==> gpu.reports == old(gpu.reports) + Dmabuf.ReportsOf(output)
    {
      output := Dmabuf.Attribs(0, 0, 0, 0, 0, seq(4, _ => Dmabuf.Plane(0, 0, 0)));
      ghost var pre := Now();
      var texture: nat;
      texture, lastError := Begin(input, params);
      renderer.OwnedCount();
      if lastError != NoError {
        call := Call(Rejected, 0, Job(input.width, input.height, params));
        NothingDone(pre, call.job, ImageOf(input));
        return false, output, call;
      }
      output, lastError, call := BlurImported(texture, input, params, output, pre);
      ok := lastError == NoError;
    }
  }
}
