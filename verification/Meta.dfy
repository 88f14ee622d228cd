/** File metadata as the log holds it (src/famfs_meta.h). */
module Meta {
  import opened Common

  const FAMFS_SUPERBLOCK_SIZE := 0x200000
  const FAMFS_ALLOC_UNIT := 0x200000
  const FAMFS_MAX_SIMPLE_EXTENTS := 16
  const FAMFS_MAX_NBUCKETS := 64
  const FAMFS_MAX_PATHLEN := 80

  datatype Extent = Extent(devindex: nat, offset: nat, len: nat)

  /** An interleaved map has one interleaved extent, whose strips are simple extents. */
  datatype Fmap =
    | Simple(exts: seq<Extent>)
    | Interleaved(chunkSize: nat, strips: seq<Extent>)

  datatype FileMeta = FileMeta(
    path: string,
    size: nat,
    flags: nat,
    mode: nat,
    uid: nat,
    gid: nat,
    fmap: Fmap)

  datatype LogEntry =
    | LogFile(fm: FileMeta)
    | LogMkdir(path: string, mode: nat, uid: nat, gid: nat)
    | LogOther

  /** The extents that back a file, in order. */
  function Extents(fmap: Fmap): seq<Extent> {
    match fmap
    case Simple(exts) => exts
    case Interleaved(_, strips) => strips
  }

  predicate Mapped(fmap: Fmap) {
    match fmap
    case Simple(exts) => |exts| == 1
    case Interleaved(chunkSize, strips) => chunkSize > 0 && |strips| > 0
  }

  /** The map has room for `size` bytes, in extents that start on unit boundaries. */
  ghost predicate Holds(unit: nat, fmap: Fmap, size: nat)
    requires unit > 0
  {
    && Mapped(fmap)
    && (forall e :: e in Extents(fmap) ==> e.offset % unit == 0)
    && match fmap
       case Simple(exts) => size <= exts[0].len
       case Interleaved(chunkSize, strips) =>
         exists rows: nat ::
           && size <= rows * (|strips| * chunkSize)
           && forall e :: e in strips ==> e.len == rows * chunkSize
  }

  /** A C string that ends inside its array. */
  predicate StorablePath(path: string) {
    |path| < FAMFS_MAX_PATHLEN && forall i :: 0 <= i < |path| ==> 0 < path[i] as int < 256
  }

  predicate StorableFmap(fmap: Fmap) {
    && |Extents(fmap)| <= FAMFS_MAX_SIMPLE_EXTENTS && (fmap.Interleaved? ==> fmap.chunkSize < U64)
    && forall e :: e in Extents(fmap) ==> e.devindex < U64 && e.offset < U64 && e.len < U64
  }

  /** What the fields of a log entry have room for. */
  predicate Storable(e: LogEntry) {
    match e
    case LogFile(fm) =>
      && StorablePath(fm.path) && StorableFmap(fm.fmap) && fm.size < U64
      && fm.flags < U32 && fm.mode < U32 && fm.uid < U32 && fm.gid < U32
    case LogMkdir(path, mode, uid, gid) => StorablePath(path) && mode < U32 && uid < U32 && gid < U32
    case LogOther => true
  }
}
