# pcbook laptop service — Dafny model

This project models the server side of the pcbook laptop catalog service:

- the in-memory laptop store (`InMemoryLaptopStore`). It is a map from laptop id to laptop. `Save` only creates, `Find` looks up, and `Search` filters.
- the search filter (`isQualified`) and the RAM normalisation to bits (`toBit`).
- the image metadata store (`DiskImageStore.Save`).
- three gRPC handlers of `LaptopServer`: `CreateLaptop` (unary), `SearchLaptop` (server streaming) and `UploadImage` (client streaming), together with `contextError` and the 1 MiB cap `maxImageSize`.

Files:

- `wrappers.dfy`: `Option` and `Result`.
- `pb.dfy`: the protocol-buffer messages as datatypes, abridged (a `Laptop` keeps its id, brand, name, CPU, RAM and price). Unset sub-messages are `Option`s, and the getters return zero values for them, as the generated Go getters do. It also defines the `uint32`, `uint64` and `byte` newtypes.
- `laptop_store.dfy`: `service/laptop_store.go`.
- `image_store.dfy`: `service/image_store.go`.
- `laptop_server.dfy`: `service/laptop_server.go`.

Laptops are values. The deep copies the store makes on `Save`, `Find` and `Search` are therefore implicit: nothing a caller holds can alias a stored entry.

The stores are classes whose map fields the methods update. The handlers are methods of a `LaptopServer` class that holds both stores.

Whatever the environment decides is an input:

- The upload stream is a sequence of receives. Each receive is paired with the context state seen just before it.
- A search's stream is a predicate saying whether the response for a laptop is sent.
- `uuid.Parse` is a predicate parameter `isUuid`. The model does not fix the accepted forms: the library also accepts braced, URN and 32-hex spellings besides the 36-character layout of section 3 of RFC 4122.
- `uuid.NewRandom` is an `Option<string>`. `None` means generation failed.
- File creation and writing is a `DiskResult`.

The cap `MaxImageSize` is the constant 0x10_0000, which is 1 << 20. `UploadImage`'s chunk loop is a `while` loop. It is proved against the function `ReadChunks`, and the lemmas about `ReadChunks` state the running-total cap, the order of concatenation and the context check. `Search` is a loop over the map's keys. It picks each key by nondeterministic choice, because the order of Go map iteration is unspecified.

Three behaviours of the code worth knowing:

- `Search` does not stop on a cancelled or expired context. It only logs it (service/laptop_store.go:82-84). Nothing checks the context before a send.
- The image store does not check that the laptop exists. `UploadImage` checks it through `Find` (service/laptop_server.go:124-130).
- The context is not checked before the first receive of an upload. It is checked before every later receive.

## Model

| member | source | states |
|---|---|---|
| `LaptopStore.Shl` | service/laptop_store.go:127-135 | Go's `<<` on uint64: the exact product v·2^n whenever it fits in 64 bits; for a shift by at most 64, the bits of v above 64 − n are lost, so the result is (v mod 2^(64−n))·2^n |
| `LaptopStore.TopBitShiftedOut` | service/laptop_store.go:127-135 | a shift that overflows below 64 wraps: the top bit of a uint64 shifted left by one gives 0 |
| `LaptopStore.ToBit` | service/laptop_store.go:120-139 | the bit count is value × 8 × 1024^k for the unit, taken modulo 2^64 (uint64 shift wrap-around); an unknown unit gives 0 |
| `LaptopStore.ShiftWidths` | service/laptop_store.go:124-135 | the shifts 3, 13, 23, 33, 43 are the multipliers 8, 8·1024, 8·1024², 8·1024³, 8·1024⁴ |
| `LaptopStore.SameSizeSameBits` | service/laptop_store.go:120-139 | a size in one unit and the same size in the next smaller unit (×8 or ×1024) normalise to the same bit count |
| `LaptopStore.OneGigabyteIs1024Megabytes` | service/laptop_store.go:130-133 | toBit(1 GB) == toBit(1024 MB) |
| `LaptopStore.TwoToThe21TerabytesWrapToZero` | service/laptop_store.go:134-135 | the shift wraps: 2^21 TB normalises to 0 bits |
| `LaptopStore.IsQualified` | service/laptop_store.go:100-118 | true iff price ≤ max price, cores ≥ min cores, min GHz ≥ filter min GHz and toBit(ram) ≥ toBit(min ram): every boundary inclusive |
| `LaptopStore.BoundaryLaptopQualifies` | service/laptop_store.go:100-118 | a laptop at exactly 3000 USD, 4 cores, 2.5 GHz, 8 GB passes the filter with those four bounds |
| `LaptopStore.UnknownUnitFailsPositiveMinimum` | service/laptop_store.go:113-139 | a laptop whose RAM unit is unknown fails every filter whose minimum RAM normalises (through toBit) to a positive bit count; a minimum whose shift wraps to 0, such as 2^21 TB, still lets it pass |
| `LaptopStore.LooserFilterKeeps` | service/laptop_store.go:100-118 | a laptop that passes a filter passes every looser one (higher max price, lower minimums) |
| `LaptopStore.InMemoryLaptopStore.constructor` | service/laptop_store.go:32-37 | a new store is empty |
| `LaptopStore.InMemoryLaptopStore.Save` | service/laptop_store.go:39-56 | a present id gives ErrAlreadyExists and changes nothing; a new id makes the map the old map plus id ↦ laptop; every entry stays keyed by its own id |
| `LaptopStore.InMemoryLaptopStore.Find` | service/laptop_store.go:58-75 | returns a value iff the id is stored, and then the stored laptop, whose id is the one asked for; absence is not an error; the map is not modified |
| `LaptopStore.InMemoryLaptopStore.Search` | service/laptop_store.go:77-98 | the callback gets only stored, qualifying laptops, each entry at most once, map unchanged; every callback before the last succeeded; an error is the last callback's error; with no error every qualifying entry was visited |
| `LaptopStore.SaveThenFind` | service/laptop_store.go:40-75 | after a successful Save(L), Find(L.id) returns a value equal to L; after a refused one, the laptop stored before |
| `LaptopStore.SaveTwice` | service/laptop_store.go:40-55 | of two Saves with the same id, the second always reports ErrAlreadyExists and the first one's laptop is kept |
| `ImageStore.ImagePath` | service/image_store.go:45 | the path is imageFolder, then "/", then imageID, then imageType, and each part can be read back at its offset |
| `ImageStore.DistinctIdsDistinctPaths` | service/image_store.go:40-45 | distinct image ids of equal length give distinct paths for the same type |
| `ImageStore.DiskImageStore.constructor` | service/image_store.go:31-36 | a new store has the given folder and no images |
| `ImageStore.DiskImageStore.Save` | service/image_store.go:39-66 | a failed id generation, file creation or write returns that error and leaves the metadata unchanged; a success returns the id, adds id ↦ {laptopID, type, path} and records the written bytes at the path; the laptop id is not checked |
| `ImageStore.SaveKeepsOthers` | service/image_store.go:56-65 | a successful Save adds exactly one key, the returned id; entries under every other key are unchanged; a failure leaves the map as it was |
| `LaptopServer.ContextError` | service/laptop_server.go:185-194 | Canceled for a cancelled context, DeadlineExceeded for an expired one, nothing otherwise |
| `LaptopServer.SaveErrorCode` | service/laptop_server.go:64-72 | a store error maps to AlreadyExists iff it is ErrAlreadyExists; otherwise it maps to Internal |
| `LaptopServer.FirstInfo` | service/laptop_server.go:114-120 | there is an image info exactly when the first receive delivered a message, and it is that message's info (empty fields when the message holds no info) |
| `LaptopServer.ConcatSize` | service/laptop_server.go:171-174 | the concatenated image is as long as the sum of the chunk sizes |
| `LaptopServer.ChunksAppend` | service/laptop_server.go:135-164 | chunks whose running total stays within the cap are appended in order, and the loop carries on with the rest of the stream |
| `LaptopServer.CleanUploadDrains` | service/laptop_server.go:135-164 | chunks within the cap that end in EOF, or at the end of the stream, yield exactly their in-order concatenation, whose size is the sum of the chunk sizes |
| `LaptopServer.OversizedChunkAborts` | service/laptop_server.go:151-159 | the chunk that takes the running total past 1 << 20 ends the upload with InvalidArgument; it is not appended, and nothing after it is read |
| `LaptopServer.ContextCheckedBeforeReceive` | service/laptop_server.go:135-139 | a cancelled or expired context before any later receive ends the upload with that status, whatever follows |
| `LaptopServer.ReceiveErrorAborts` | service/laptop_server.go:142-149 | a failed receive after the info message ends the upload with Unknown, whatever follows |
| `LaptopServer.NonChunkMessageAddsNothing` | service/laptop_server.go:151-159 | a later message that holds no chunk adds no bytes, and the loop goes on with what it has |
| `LaptopServer.ReadChunks` | service/laptop_server.go:135-164 | it models the chunk loop, and its contract states that a drained image extends the bytes accepted before and is at most 1 << 20 bytes; the lemmas around it state each case: chunks, EOF, an oversized chunk, a done context, a failed receive and a message without a chunk |
| `LaptopServer.ExactlyOneMebibyteAccepted` | service/laptop_server.go:156-159 | chunks totalling exactly 1 << 20 bytes are accepted |
| `LaptopServer.OneByteOverRefused` | service/laptop_server.go:156-159 | one more byte after exactly 1 << 20 is refused with InvalidArgument |
| `LaptopServer.LaptopServer.constructor` | service/laptop_server.go:23-30 | the server holds the two given stores |
| `LaptopServer.LaptopServer.CreateLaptop` | service/laptop_server.go:34-81 | an invalid client id gives InvalidArgument; a failed generation gives Internal; a done context gives its code; a duplicate gives AlreadyExists; in each of these cases the store is untouched; on success the laptop, with the generated id if its id was empty, is stored under res.Id |
| `LaptopServer.LaptopServer.SearchLaptop` | service/laptop_server.go:83-111 | the responses sent are stored, qualifying and accepted laptops, each at most once; with no error every qualifying laptop was sent; any error is Internal and arises only from a failed send |
| `LaptopServer.LaptopServer.UploadImage` | service/laptop_server.go:113-183 | a failed first receive gives Unknown and an unknown laptop gives InvalidArgument, both saving nothing; the chunk loop's outcome is ReadChunks; the saved bytes are the drained concatenation, the metadata gains one entry, and the response size is its length; store failures give Internal and a failed final send gives Unknown |

## Left out

- Locking (`sync.RWMutex` in both stores): each operation is modelled as atomic and sequential. Concurrent calls are therefore not modelled, beyond the serialisation `SaveTwice` shows.
- Logging and `logError`, which only logs and returns its argument.
- Status messages: a failure carries its gRPC code only.
- `deepCopy` and the `copier` library: copies are values, so a copy cannot fail. As a result the in-memory `Save` never reports `ErrOther`, `Find` never returns an error, and `UploadImage`'s Internal branch for a failing `Find` (service/laptop_server.go:125-127) cannot arise. `SaveErrorCode` still maps a failure other than `ErrAlreadyExists` to Internal.
- The context passed to `Search` is only logged, so it is not a parameter of the model.
- LaptopServer.LaptopServer.SearchLaptop: whether a send succeeds is a function of the laptop sent. A stream whose failure depends on how many messages went before is not expressed.
- CreateLaptop: a request with no laptop, on which the Go handler dereferences nil, is not modelled. The assignment of the generated id to the caller's request object is not visible to the caller, because laptops are values.
- Real UUID parsing and generation: both are inputs, as described above.
- `bytes.Buffer.Write` in the chunk loop never returns an error, so its Internal branch (service/laptop_server.go:160-163) is not modelled.
- A stream that runs out of receives is read as EOF.
- `os.Create` and `WriteTo` are one `DiskResult` input. `files` records only completely written files. A file left behind by a failed write, and the file handle the Go code never closes, are not modelled.
- The image store overwrites metadata if a generated id is already present. `DiskImageStore.Save` states this overwrite. Distinct UUIDs are not assumed.
- Float semantics for price and GHz: they are `real`, so NaN and rounding are not modelled.
- `RateLaptop`, the authentication interceptor, the JWT manager and the user and rating stores are not part of this model, because their code is not among the files modelled. The same goes for the three-argument `NewLaptopServer` that `cmd/server/main.go` calls.
- The clients, the server's composition root (flags, listener, registration, the role table) and the serializer helpers are not part of this model.
