/**
 * The part of the file system the data-preparation scripts touch: a map from path to
 * file contents. Directories are not entries of their own; a path "exists" when a file
 * is stored under it.
 */
module FileStore {
  import opened ImageUtils

  /**
   * What a file holds: raw bytes (an image, or any file copied verbatim), or a label
   * file written by the ground-truth converter, one YOLO line per entry.
   */
  datatype Content = Bytes(data: seq<bv8>) | YoloText(lines: seq<YoloLabel>)

  class Disk {
    var files: map<string, Content>

    constructor(files: map<string, Content>)
      ensures this.files == files
    {
      this.files := files;
    }
  }
}
