/**
 * The wallet files on disk, as the scripts see them: each path holds either
 * a document the script wrote with `json.dump`, or some other content that
 * is described by what `os.path.getsize` and `json.load` make of it.
 */
module FileSystem {
  import opened Python

  /** What `os.path.getsize(path)` gives: a byte count, or an exception. */
  datatype SizeProbe = Size(bytes: nat) | SizeUnavailable

  /** What opening the file and calling `json.load` on it gives. */
  datatype ReadOutcome =
    | Parsed(value: Json)
    /** `json.JSONDecodeError`: the text is not JSON. */
    | DecodeError(msg: string)
    /** Any other exception while opening or reading. */
    | ReadError(msg: string)

  datatype FileEntry =
    /** Written by `json.dump`: never empty, and `json.load` gives the value back. */
    | Document(value: Json)
    /** Other content; a `Parsed` read of a file of size 0 cannot happen and `LoadOf` reads it as a decode error. */
    | Raw(size: SizeProbe, read: ReadOutcome)

  /** `os.path.getsize` of an entry; of a dumped document only its being non-empty is modelled. */
  function SizeOf(e: FileEntry): (r: SizeProbe)
    ensures e.Document? ==> r.Size? && r.bytes > 0
  {
    match e
    case Document(_) => Size(1)
    case Raw(size, _) => size
  }

  /** What `json.load` raises on an empty file. */
  const EmptyDocumentError: string := "Expecting value: line 1 column 1 (char 0)"

  /**
   * `json.load` of an entry: a document reads back as what was dumped, and a
   * file of size 0 never parses (the empty text is not JSON).
   */
  function LoadOf(e: FileEntry): (r: ReadOutcome)
    ensures e.Document? ==> r == Parsed(e.value)
    ensures e.Raw? && e.size == Size(0) ==> !r.Parsed?
    ensures e.Raw? && !(e.size == Size(0) && e.read.Parsed?) ==> r == e.read
  {
    match e
    case Document(v) => Parsed(v)
    case Raw(size, read) =>
      if size == Size(0) && read.Parsed? then DecodeError(EmptyDocumentError) else read
  }

  /** The files of the working directory, by path. */
  class FileStore {
    var files: map<string, FileEntry>

    constructor (initial: map<string, FileEntry>)
      ensures files == initial
    {
      files := initial;
    }

    /** `os.path.exists(path)` */
    predicate Exists(path: string)
      reads this
    {
      path in files
    }

    /** `open(path, "w")` then `json.dump(v, f)`: the path now holds `v`, nothing else changes. */
    method WriteJson(path: string, v: Json)
      modifies this
      ensures files == old(files)[path := Document(v)]
    {
      files := files[path := Document(v)];
    }

    /**
     * `shutil.copy2(source, target)`, which may fail (`ok` false, the
     * environment's answer): on success the target holds a copy of the source.
     */
    method Copy(source: string, target: string, ok: bool)
      requires source in files
      modifies this
      ensures files == if ok then old(files)[target := old(files)[source]] else old(files)
    {
      if ok {
        files := files[target := files[source]];
      }
    }
  }
}
