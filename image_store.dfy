/**
 * The image store: writes each uploaded image to a file in its folder and
 * keeps, in memory, the metadata of every image it wrote.
 *
 * The generated image id and the outcome of creating and writing the file
 * are inputs of `Save`.
 */
module ImageStore {
  import opened Wrappers
  import Pb

  /** ImageInfo: what the store remembers about one image. */
  datatype ImageInfo = ImageInfo(laptopId: string, imageType: string, path: string)

  /** Why Save failed: no id could be generated, or the file could not be created or written. */
  datatype SaveError = ErrImageId | ErrCreateFile | ErrWriteFile

  /** What the file system does with one Save. */
  datatype DiskResult = CreateFailed | WriteFailed | Written

  /** The file an image is written to: `folder/id` followed by the image type (its extension). */
  function ImagePath(folder: string, imageId: string, imageType: string): (path: string)
    ensures |path| == |folder| + 1 + |imageId| + |imageType|
    ensures path[..|folder|] == folder && path[|folder|] == '/'
    ensures path[|folder| + 1..|folder| + 1 + |imageId|] == imageId
    ensures path[|folder| + 1 + |imageId|..] == imageType
  {
    folder + "/" + imageId + imageType
  }

  /** Two images of one type with distinct ids of equal length (UUID strings
      all have 36 characters) never share a file. */
  lemma DistinctIdsDistinctPaths(folder: string, id1: string, id2: string, imageType: string)
    requires |id1| == |id2| && id1 != id2
    ensures ImagePath(folder, id1, imageType) != ImagePath(folder, id2, imageType)
  {
  }

  /** DiskImageStore: a folder on disk and the metadata of the images saved in it. */
  class DiskImageStore {
    const imageFolder: string
    var images: map<string, ImageInfo>
    /** The bytes of each file a Save has completely written, by path. */
    var files: map<string, seq<Pb.byte>>

    constructor (imageFolder: string)
      ensures this.imageFolder == imageFolder && images == map[] && files == map[]
    {
      this.imageFolder := imageFolder;
      images := map[];
      files := map[];
    }

    /**
     * Save: writes `imageData` to a new file named after the generated id
     * `newId` (None when generation fails) and, only once the write has
     * succeeded, records its metadata under that id. The laptop id is
     * recorded as given; whether such a laptop exists is not checked here.
     */
    method Save(laptopId: string, imageType: string, imageData: seq<Pb.byte>, newId: Option<string>, disk: DiskResult)
      returns (r: Result<string, SaveError>)
      modifies this
      ensures newId.None? ==> r == Failure(ErrImageId) && images == old(images) && files == old(files)
      ensures newId.Some? && disk == CreateFailed ==> r == Failure(ErrCreateFile) && images == old(images) && files == old(files)
      ensures newId.Some? && disk == WriteFailed ==> r == Failure(ErrWriteFile) && images == old(images) && files == old(files)
      ensures newId.Some? && disk == Written ==>
        var path := ImagePath(imageFolder, newId.value, imageType);
        && r == Success(newId.value)
        && images == old(images)[newId.value := ImageInfo(laptopId, imageType, path)]
        && files == old(files)[path := imageData]
    {
      if newId.None? {
        return Failure(ErrImageId);
      }
      var imageId := newId.value;
      var imagePath := ImagePath(imageFolder, imageId, imageType);
      if disk == CreateFailed {
        return Failure(ErrCreateFile);
      }
      if disk == WriteFailed {
        return Failure(ErrWriteFile);
      }
      files := files[imagePath := imageData];
      images := images[imageId := ImageInfo(laptopId, imageType, imagePath)];
      return Success(imageId);
    }
  }

  /** A Save leaves the metadata of every other image as it was, and fails
      without touching the metadata at all. */
  method SaveKeepsOthers(store: DiskImageStore, laptopId: string, imageType: string, imageData: seq<Pb.byte>,
                         newId: Option<string>, disk: DiskResult) returns (r: Result<string, SaveError>)
    modifies store
    ensures r.Failure? ==> store.images == old(store.images)
    ensures r.Success? ==>
      && r.value in store.images && store.images[r.value].laptopId == laptopId
      && store.images.Keys == old(store.images.Keys) + {r.value}
      && forall id | id in old(store.images) && id != r.value :: store.images[id] == old(store.images)[id]
  {
    r := store.Save(laptopId, imageType, imageData, newId, disk);
  }
}
