/**
 * The protocol-buffer messages the laptop service exchanges, as values.
 *
 * Every getter mirrors the generated Go getter: on an unset sub-message it
 * yields the zero value of the field instead of failing.
 */
module Pb {
  import opened Wrappers

  newtype uint32 = x: int | 0 <= x < 0x1_0000_0000
  newtype uint64 = x: int | 0 <= x < 0x1_0000_0000_0000_0000
  newtype byte = x: int | 0 <= x < 0x100

  /** Memory.Unit. `UnknownUnit` (UNKNOWN) also stands for every enum number no case names. */
  datatype MemoryUnit = UnknownUnit | Bit | Byte | Kilobyte | Megabyte | Gigabyte | Terabyte

  datatype Memory = Memory(value: uint64, unit: MemoryUnit)

  /** The zero Memory message, which is what a getter yields for an unset field. */
  const NoMemory: Memory := Memory(0, UnknownUnit)

  datatype Cpu = Cpu(
    brand: string,
    name: string,
    numberCores: uint32,
    numberThreads: uint32,
    minGhz: real,
    maxGhz: real)

  datatype Laptop = Laptop(
    id: string,
    brand: string,
    name: string,
    cpu: Option<Cpu>,
    ram: Option<Memory>,
    priceUsd: real)
  {
    function GetNumberCores(): uint32 {
      if cpu.Some? then cpu.value.numberCores else 0
    }

    function GetMinGhz(): real {
      if cpu.Some? then cpu.value.minGhz else 0.0
    }

    function GetRam(): Memory {
      ram.GetOr(NoMemory)
    }
  }

  datatype Filter = Filter(
    maxPriceUsd: real,
    minCpuCores: uint32,
    minCpuGhz: real,
    minRam: Option<Memory>)
  {
    function GetMinRam(): Memory {
      minRam.GetOr(NoMemory)
    }
  }

  /** The filter every field of which is zero: what `GetFilter` yields on a request without one. */
  const ZeroFilter: Filter := Filter(0.0, 0, 0.0, None)

  datatype CreateLaptopResponse = CreateLaptopResponse(id: string)

  datatype SearchLaptopRequest = SearchLaptopRequest(filter: Option<Filter>) {
    function GetFilter(): Filter {
      filter.GetOr(ZeroFilter)
    }
  }

  datatype SearchLaptopResponse = SearchLaptopResponse(laptop: Laptop)

  datatype ImageInfo = ImageInfo(laptopId: string, imageType: string)

  /** The `data` one-of of UploadImageRequest: image info, a chunk of bytes, or nothing set. */
  datatype UploadImageRequest = UploadInfo(info: ImageInfo) | UploadChunk(chunkData: seq<byte>) | UploadUnset
  {
    function GetInfo(): ImageInfo {
      if UploadInfo? then info else ImageInfo("", "")
    }

    function GetChunkData(): seq<byte> {
      if UploadChunk? then chunkData else []
    }
  }

  datatype UploadImageResponse = UploadImageResponse(id: string, size: uint32)
}
