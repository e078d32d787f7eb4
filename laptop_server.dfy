/**
 * The laptop service's request handlers: create (unary), search (server
 * streaming) and image upload (client streaming).
 *
 * Each handler runs to completion as one sequential step machine. What the
 * transport, the call context, the UUID library and the disk would decide
 * is passed in as inputs: the inbound stream as a sequence of receives, each
 * paired with the context state seen just before it.
 */
module LaptopServer {
  import opened Wrappers
  import opened Pb
  import opened LaptopStore
  import ImageStore

  /** The gRPC status codes the handlers return. */
  datatype Code = Canceled | Unknown | InvalidArgument | DeadlineExceeded | AlreadyExists | Internal

  /** What `ctx.Err()` reports. */
  datatype CtxErr = NoErr | ErrCanceled | ErrDeadlineExceeded

  /** The outcome of a call: the response the client gets, or a failing status. */
  datatype Reply<+T> = Ok(value: T) | Fail(code: Code)

  /** maxImageSize = 1 << 20: the largest image, in bytes, an upload may carry. */
  const MaxImageSize: nat := 0x10_0000

  /** contextError: the status for a finished context, nothing for a live one. */
  function ContextError(ctx: CtxErr): (r: Option<Code>)
    ensures r.None? <==> ctx == NoErr
    ensures ctx == ErrCanceled ==> r == Some(Canceled)
    ensures ctx == ErrDeadlineExceeded ==> r == Some(DeadlineExceeded)
  {
    match ctx
    case ErrCanceled => Some(Canceled)
    case ErrDeadlineExceeded => Some(DeadlineExceeded)
    case NoErr => None
  }

  /** How CreateLaptop reports a failed Save: a duplicate id as AlreadyExists, anything else as Internal. */
  function SaveErrorCode(e: StoreError): (c: Code)
    ensures c == AlreadyExists <==> e == ErrAlreadyExists
    ensures c != AlreadyExists ==> c == Internal
  {
    if e == ErrAlreadyExists then AlreadyExists else Internal
  }

  // ---------------------------------------------------------------------
  // The upload stream

  /** The result of one `stream.Recv()`. */
  datatype Recv = Received(req: UploadImageRequest) | RecvEOF | RecvError

  /** One receive, with the context state seen just before it is attempted. */
  datatype Inbound = Inbound(ctx: CtxErr, recv: Recv)

  /** How the chunk loop ends: with the image bytes at EOF, or with a status. */
  datatype Drain = Drained(data: seq<byte>) | Aborted(code: Code)

  /**
   * The chunk loop of UploadImage, as a function of the receives still to
   * come and the bytes already accepted: before each receive the context is
   * checked; EOF (or a stream with nothing left) ends it; a chunk is added to
   * the running total and refused, unappended, once that exceeds
   * MaxImageSize.
   */
  function ReadChunks(steps: seq<Inbound>, acc: seq<byte>): (d: Drain)
    ensures |acc| <= MaxImageSize && d.Drained? ==> acc <= d.data && |d.data| <= MaxImageSize
    decreases |steps|
  {
    if steps == [] then Drained(acc)
    else if ContextError(steps[0].ctx).Some? then Aborted(ContextError(steps[0].ctx).value)
    else match steps[0].recv
      case RecvEOF => Drained(acc)
      case RecvError => Aborted(Unknown)
      case Received(req) =>
        if |acc| + |req.GetChunkData()| > MaxImageSize then Aborted(InvalidArgument)
        else ReadChunks(steps[1..], acc + req.GetChunkData())
  }

  /** The in-order concatenation of chunks. */
  function Concat(chunks: seq<seq<byte>>): seq<byte> {
    if chunks == [] then [] else chunks[0] + Concat(chunks[1..])
  }

  /** The sum of the chunk sizes. */
  function TotalSize(chunks: seq<seq<byte>>): nat {
    if chunks == [] then 0 else |chunks[0]| + TotalSize(chunks[1..])
  }

  /** Chunks arriving one per receive on a live context. */
  function ChunkSteps(chunks: seq<seq<byte>>): (steps: seq<Inbound>)
    ensures |steps| == |chunks|
    ensures forall i | 0 <= i < |chunks| :: steps[i] == Inbound(NoErr, Received(UploadChunk(chunks[i])))
  {
    if chunks == [] then [] else [Inbound(NoErr, Received(UploadChunk(chunks[0])))] + ChunkSteps(chunks[1..])
  }

  lemma {:induction false} ConcatSize(chunks: seq<seq<byte>>)
    ensures |Concat(chunks)| == TotalSize(chunks)
  {
    if chunks != [] {
      ConcatSize(chunks[1..]);
    }
  }

  /** Chunks whose running total stays within the cap are all appended, in order. */
  lemma {:induction false} ChunksAppend(chunks: seq<seq<byte>>, rest: seq<Inbound>, acc: seq<byte>)
    requires |acc| + TotalSize(chunks) <= MaxImageSize
    ensures ReadChunks(ChunkSteps(chunks) + rest, acc) == ReadChunks(rest, acc + Concat(chunks))
  {
    var steps := ChunkSteps(chunks) + rest;
    if chunks == [] {
      assert steps == rest && acc + Concat(chunks) == acc;
    } else {
      assert steps[0] == Inbound(NoErr, Received(UploadChunk(chunks[0])));
      assert steps[1..] == ChunkSteps(chunks[1..]) + rest;
      assert ReadChunks(steps, acc) == ReadChunks(steps[1..], acc + chunks[0]);
      ChunksAppend(chunks[1..], rest, acc + chunks[0]);
      assert acc + chunks[0] + Concat(chunks[1..]) == acc + Concat(chunks);
    }
  }

  /** Chunks within the cap followed by EOF, or by the end of the stream, yield
      exactly their concatenation, whose size is the sum of theirs; a total of
      exactly MaxImageSize is accepted. */
  lemma CleanUploadDrains(chunks: seq<seq<byte>>, tail: seq<Inbound>)
    requires TotalSize(chunks) <= MaxImageSize
    requires tail == [] || tail[0] == Inbound(NoErr, RecvEOF)
    ensures ReadChunks(ChunkSteps(chunks) + tail, []) == Drained(Concat(chunks))
    ensures |Concat(chunks)| == TotalSize(chunks)
  {
    ChunksAppend(chunks, tail, []);
    ConcatSize(chunks);
  }

  /** The chunk that takes the running total past MaxImageSize ends the upload
      with InvalidArgument, whatever the stream would have delivered after it. */
  lemma OversizedChunkAborts(chunks: seq<seq<byte>>, big: seq<byte>, rest: seq<Inbound>)
    requires TotalSize(chunks) <= MaxImageSize < TotalSize(chunks) + |big|
    ensures ReadChunks(ChunkSteps(chunks) + [Inbound(NoErr, Received(UploadChunk(big)))] + rest, []) == Aborted(InvalidArgument)
  {
    var last := [Inbound(NoErr, Received(UploadChunk(big)))] + rest;
    assert ChunkSteps(chunks) + [Inbound(NoErr, Received(UploadChunk(big)))] + rest == ChunkSteps(chunks) + last;
    ChunksAppend(chunks, last, []);
    ConcatSize(chunks);
  }

  /** The context is checked before every receive: once it is cancelled or past
      its deadline, the upload ends with that status and reads nothing more. */
  lemma ContextCheckedBeforeReceive(chunks: seq<seq<byte>>, step: Inbound, rest: seq<Inbound>)
    requires TotalSize(chunks) <= MaxImageSize
    requires step.ctx != NoErr
    ensures ReadChunks(ChunkSteps(chunks) + [step] + rest, []) == Aborted(ContextError(step.ctx).value)
  {
    var last := [step] + rest;
    assert ChunkSteps(chunks) + [step] + rest == ChunkSteps(chunks) + last;
    ChunksAppend(chunks, last, []);
  }

  /** A failed receive after the info message ends the upload with Unknown,
      whatever the stream would have delivered after it. */
  lemma ReceiveErrorAborts(chunks: seq<seq<byte>>, rest: seq<Inbound>)
    requires TotalSize(chunks) <= MaxImageSize
    ensures ReadChunks(ChunkSteps(chunks) + [Inbound(NoErr, RecvError)] + rest, []) == Aborted(Unknown)
  {
    var last := [Inbound(NoErr, RecvError)] + rest;
    assert ChunkSteps(chunks) + [Inbound(NoErr, RecvError)] + rest == ChunkSteps(chunks) + last;
    ChunksAppend(chunks, last, []);
  }

  /** A later message that carries no chunk (a second info, or an unset
      request) contributes no bytes: the loop goes on with the bytes it has. */
  lemma NonChunkMessageAddsNothing(chunks: seq<seq<byte>>, req: UploadImageRequest, rest: seq<Inbound>)
    requires TotalSize(chunks) <= MaxImageSize
    requires !req.UploadChunk?
    ensures ReadChunks(ChunkSteps(chunks) + [Inbound(NoErr, Received(req))] + rest, []) == ReadChunks(rest, Concat(chunks))
  {
    var last := [Inbound(NoErr, Received(req))] + rest;
    assert ChunkSteps(chunks) + [Inbound(NoErr, Received(req))] + rest == ChunkSteps(chunks) + last;
    ChunksAppend(chunks, last, []);
    ConcatSize(chunks);
    assert req.GetChunkData() == [];
    assert last[1..] == rest;
    assert Concat(chunks) + [] == Concat(chunks);
    assert [] + Concat(chunks) == Concat(chunks);
    assert ReadChunks(last, Concat(chunks)) == ReadChunks(last[1..], Concat(chunks) + req.GetChunkData());
  }

  lemma ExactlyOneMebibyteAccepted(chunks: seq<seq<byte>>)
    requires TotalSize(chunks) == MaxImageSize
    ensures ReadChunks(ChunkSteps(chunks), []) == Drained(Concat(chunks))
    ensures |Concat(chunks)| == MaxImageSize
  {
    assert ChunkSteps(chunks) + [] == ChunkSteps(chunks);
    CleanUploadDrains(chunks, []);
  }

  lemma OneByteOverRefused(chunks: seq<seq<byte>>, b: byte, rest: seq<Inbound>)
    requires TotalSize(chunks) == MaxImageSize
    ensures ReadChunks(ChunkSteps(chunks) + [Inbound(NoErr, Received(UploadChunk([b])))] + rest, []) == Aborted(InvalidArgument)
  {
    OversizedChunkAborts(chunks, [b], rest);
  }

  /** The image info the first receive of an upload carries, or None when that receive failed. */
  function FirstInfo(steps: seq<Inbound>): (info: Option<ImageInfo>)
    ensures info.Some? <==> |steps| > 0 && steps[0].recv.Received?
    ensures info.Some? ==> info.value == steps[0].recv.req.GetInfo()
  {
    if |steps| > 0 && steps[0].recv.Received? then Some(steps[0].recv.req.GetInfo()) else None
  }

  // ---------------------------------------------------------------------
  // The server

  /** The callback's error when a response could not be sent. */
  datatype SendError = SendFailed

  /** LaptopServer: the handlers over one laptop store and one image store. */
  class LaptopServer {
    const laptopStore: InMemoryLaptopStore
    const imageStore: ImageStore.DiskImageStore

    ghost predicate Valid()
      reads this, laptopStore
    {
      laptopStore.Valid()
    }

    constructor (laptopStore: InMemoryLaptopStore, imageStore: ImageStore.DiskImageStore)
      requires laptopStore.Valid()
      ensures Valid() && this.laptopStore == laptopStore && this.imageStore == imageStore
    {
      this.laptopStore := laptopStore;
      this.imageStore := imageStore;
    }

    /**
     * CreateLaptop: a client-supplied id must pass `isUuid` (uuid.Parse); an
     * empty id is replaced by the generated one, `newId` (None when
     * generation fails). The context is checked before the laptop is saved.
     */
    method CreateLaptop(ctx: CtxErr, laptop: Laptop, isUuid: string -> bool, newId: Option<string>)
      returns (r: Reply<CreateLaptopResponse>)
      requires Valid()
      modifies laptopStore
      ensures Valid()
      ensures laptop.id != "" && !isUuid(laptop.id) ==> r == Fail(InvalidArgument) && unchanged(laptopStore)
      ensures laptop.id == "" && newId.None? ==> r == Fail(Internal) && unchanged(laptopStore)
      ensures (laptop.id != "" && isUuid(laptop.id)) || (laptop.id == "" && newId.Some?) ==>
        var stored := if laptop.id != "" then laptop else laptop.(id := newId.value);
        && (ctx != NoErr ==> r == Fail(ContextError(ctx).value) && unchanged(laptopStore))
        && (ctx == NoErr && stored.id in old(laptopStore.data) ==> r == Fail(AlreadyExists) && unchanged(laptopStore))
        && (ctx == NoErr && stored.id !in old(laptopStore.data) ==>
              r == Ok(CreateLaptopResponse(stored.id)) && laptopStore.data == old(laptopStore.data)[stored.id := stored])
    {
      var laptop := laptop;
      if |laptop.id| > 0 {
        if !isUuid(laptop.id) {
          return Fail(InvalidArgument);
        }
      } else {
        if newId.None? {
          return Fail(Internal);
        }
        laptop := laptop.(id := newId.value);
      }

      var ce := ContextError(ctx);
      if ce.Some? {
        return Fail(ce.value);
      }

      var err := laptopStore.Save(laptop);
      if err.Some? {
        return Fail(SaveErrorCode(err.value));
      }
      return Ok(CreateLaptopResponse(laptop.id));
    }

    /**
     * SearchLaptop: one response per laptop the store's Search hands over,
     * sent in that order; `sendOk` says whether the stream accepts the
     * response for a laptop. Any error ends the call with Internal.
     * `sent` is what reached the stream.
     */
    method SearchLaptop(req: SearchLaptopRequest, sendOk: Laptop -> bool)
      returns (sent: seq<SearchLaptopResponse>, r: Option<Code>)
      requires Valid()
      ensures r.None? || r == Some(Internal)
      ensures forall i | 0 <= i < |sent| ::
        var l := sent[i].laptop;
        l.id in laptopStore.data && laptopStore.data[l.id] == l && IsQualified(req.GetFilter(), l) && sendOk(l)
      ensures forall i, j | 0 <= i < j < |sent| :: sent[i].laptop.id != sent[j].laptop.id
      ensures r.None? ==> forall id | id in laptopStore.data && IsQualified(req.GetFilter(), laptopStore.data[id]) ::
        SearchLaptopResponse(laptopStore.data[id]) in sent
      ensures r.Some? ==> exists id | id in laptopStore.data :: IsQualified(req.GetFilter(), laptopStore.data[id]) && !sendOk(laptopStore.data[id])
    {
      var filter := req.GetFilter();
      var visited, err := laptopStore.Search(filter, (l: Laptop) => if sendOk(l) then None else Some(SendFailed));
      if err.Some? {
        var last := visited[|visited| - 1];
        assert last.id in laptopStore.data && laptopStore.data[last.id] == last;
        sent := seq(|visited| - 1, i requires 0 <= i < |visited| - 1 => SearchLaptopResponse(visited[i]));
        return sent, Some(Internal);
      }
      sent := seq(|visited|, i requires 0 <= i < |visited| => SearchLaptopResponse(visited[i]));
      forall id | id in laptopStore.data && IsQualified(filter, laptopStore.data[id])
        ensures SearchLaptopResponse(laptopStore.data[id]) in sent
      {
        var k :| 0 <= k < |visited| && visited[k] == laptopStore.data[id];
        assert sent[k] == SearchLaptopResponse(laptopStore.data[id]);
      }
      return sent, None;
    }

    /**
     * UploadImage: the first receive must bring the image info, and the
     * laptop it names must be stored; then chunks are read until EOF (see
     * ReadChunks), the bytes are saved to the image store with the generated
     * id `newId` and the disk outcome `disk`, and the response is sent,
     * which succeeds when `sendOk` holds.
     */
    method UploadImage(steps: seq<Inbound>, newId: Option<string>, disk: ImageStore.DiskResult, sendOk: bool)
      returns (r: Reply<UploadImageResponse>)
      requires Valid()
      modifies imageStore
      ensures FirstInfo(steps).None? ==> r == Fail(Unknown) && unchanged(imageStore)
      ensures FirstInfo(steps).Some? && FirstInfo(steps).value.laptopId !in laptopStore.data ==>
        r == Fail(InvalidArgument) && unchanged(imageStore)
      ensures FirstInfo(steps).Some? && FirstInfo(steps).value.laptopId in laptopStore.data ==>
        var info := FirstInfo(steps).value;
        match ReadChunks(steps[1..], [])
        case Aborted(code) => r == Fail(code) && unchanged(imageStore)
        case Drained(image) =>
          && |image| <= MaxImageSize
          && (newId.None? || disk != ImageStore.Written ==>
                r == Fail(Internal) && imageStore.images == old(imageStore.images) && imageStore.files == old(imageStore.files))
          && (newId.Some? && disk == ImageStore.Written ==>
                var path := ImageStore.ImagePath(imageStore.imageFolder, newId.value, info.imageType);
                && imageStore.images == old(imageStore.images)[newId.value := ImageStore.ImageInfo(info.laptopId, info.imageType, path)]
                && imageStore.files == old(imageStore.files)[path := image]
                && r == if sendOk then Ok(UploadImageResponse(newId.value, |image| as uint32)) else Fail(Unknown))
    {
      if |steps| == 0 || !steps[0].recv.Received? {
        return Fail(Unknown);
      }
      var info := steps[0].recv.req.GetInfo();

      var laptop := laptopStore.Find(info.laptopId);
      if laptop.None? {
        return Fail(InvalidArgument);
      }

      var imageData: seq<byte> := [];
      var imageSize := 0;
      var i := 1;
      while i < |steps|
        invariant 1 <= i <= |steps|
        invariant imageSize == |imageData| <= MaxImageSize
        invariant ReadChunks(steps[1..], []) == ReadChunks(steps[i..], imageData)
        decreases |steps| - i
      {
        assert steps[i..][0] == steps[i] && steps[i..][1..] == steps[i + 1..];
        var ce := ContextError(steps[i].ctx);
        if ce.Some? {
          return Fail(ce.value);
        }
        if steps[i].recv.RecvEOF? {
          break;
        }
        if steps[i].recv.RecvError? {
          return Fail(Unknown);
        }
        var chunk := steps[i].recv.req.GetChunkData();
        imageSize := imageSize + |chunk|;
        if imageSize > MaxImageSize {
          return Fail(InvalidArgument);
        }
        imageData := imageData + chunk;
        i := i + 1;
      }
      assert ReadChunks(steps[1..], []) == Drained(imageData);

      var saved := imageStore.Save(info.laptopId, info.imageType, imageData, newId, disk);
      if saved.Failure? {
        return Fail(Internal);
      }
      var res := UploadImageResponse(saved.value, imageSize as uint32);
      if !sendOk {
        return Fail(Unknown);
      }
      return Ok(res);
    }
  }
}
