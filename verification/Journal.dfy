/** The append-only log in memory: set-up, append, validation and play (src/famfs_lib.c, src/famfs_meta.h). */
module Journal {
  import opened Arith
  import opened Common
  import opened Meta
  import opened Namespace

  const FAMFS_LOG_MAGIC := 0xbadcafef00d

  /**
   How entries lie in memory: `words` words, the sequence number first and the checksum last.
   `image` lays out the rest of an entry, `parse` reads it back.
   */
  datatype Format = Format(
    words: nat,
    image: LogEntry -> seq<int>,
    parse: seq<int> -> LogEntry,
    crc: seq<int> -> int,
    headerCrc: (int, int, int) -> int,
    headerSize: nat,
    entrySize: nat)

  /** Entries that fit their fields can be read back. */
  ghost predicate Faithful(fmt: Format) {
    && fmt.words >= 2 && fmt.entrySize > 0
    && forall e :: Storable(e) ==> |fmt.image(e)| + 2 == fmt.words && fmt.parse(fmt.image(e)) == e
  }

  /** No two bodies share a checksum, and zero is the checksum of none. */
  ghost predicate CollisionFree(fmt: Format) {
    && (forall a: seq<int>, b: seq<int> ::
          |a| + 1 == fmt.words && |b| + 1 == fmt.words && fmt.crc(a) == fmt.crc(b) ==> a == b)
    && (forall a: seq<int> :: |a| + 1 == fmt.words ==> fmt.crc(a) != 0)
  }

  /** The words of the entry that is appended at `index`. */
  function Sealed(fmt: Format, index: int, e: LogEntry): seq<int> {
    var body := [index] + fmt.image(e);
    body + [fmt.crc(body)]
  }

  /** famfs_validate_log_entry on words that were read once. Its retry rereads the same copy. */
  predicate ValidEntry(fmt: Format, words: seq<int>, index: int) {
    && |words| == fmt.words >= 2
    && words[0] == index && fmt.crc(words[..fmt.words - 1]) == words[fmt.words - 1]
  }

  function EntryOf(fmt: Format, words: seq<int>): LogEntry
    requires |words| == fmt.words >= 2
  {
    fmt.parse(words[1..fmt.words - 1])
  }

  lemma SealedIsValid(fmt: Format, index: int, e: LogEntry)
    requires Faithful(fmt) && Storable(e)
    ensures ValidEntry(fmt, Sealed(fmt, index, e), index) && EntryOf(fmt, Sealed(fmt, index, e)) == e
  {
    var body := [index] + fmt.image(e);
    assert Sealed(fmt, index, e)[..fmt.words - 1] == body;
    assert Sealed(fmt, index, e)[1..fmt.words - 1] == fmt.image(e);
  }

  /** An entry that was appended at another index is refused. */
  lemma OtherIndexRefused(fmt: Format, i: int, j: int, e: LogEntry)
    requires Faithful(fmt) && Storable(e)
    ensures ValidEntry(fmt, Sealed(fmt, j, e), i) <==> i == j
  {
    SealedIsValid(fmt, j, e);
    assert Sealed(fmt, j, e)[0] == j;
  }

  /** Whatever differs from the entry that a checksum was written for is refused under that checksum. */
  lemma TornRefused(fmt: Format, i: int, e: LogEntry, words: seq<int>)
    requires Faithful(fmt) && CollisionFree(fmt) && Storable(e) && |words| == fmt.words
    requires words[fmt.words - 1] == Sealed(fmt, i, e)[|Sealed(fmt, i, e)| - 1]
    ensures ValidEntry(fmt, words, i) <==> words == Sealed(fmt, i, e)
  {
    SealedIsValid(fmt, i, e);
    var last := fmt.words - 1;
    var sealed := Sealed(fmt, i, e);
    if ValidEntry(fmt, words, i) {
      assert fmt.crc(words[..last]) == fmt.crc(sealed[..last]);
      assert words == words[..last] + [words[last]] && sealed == sealed[..last] + [sealed[last]];
    }
  }

  /** What is read from the words of an entry; anything if they are not as many as an entry has. */
  function Decoded(fmt: Format, words: seq<int>): LogEntry {
    if |words| == fmt.words >= 2 then EntryOf(fmt, words) else LogOther
  }

  function AllDecoded(fmt: Format, entries: seq<seq<int>>): (r: seq<LogEntry>)
    ensures |r| == |entries| && forall i :: 0 <= i < |r| ==> r[i] == Decoded(fmt, entries[i])
  {
    seq(|entries|, i requires 0 <= i < |entries| => Decoded(fmt, entries[i]))
  }

  /** The last valid index for a log of this many bytes. */
  function LastIndex(fmt: Format, logLen: nat): int
    requires fmt.entrySize > 0
  {
    (logLen - fmt.headerSize) / fmt.entrySize - 1
  }

  lemma EntriesFit(fmt: Format, logLen: nat)
    requires fmt.entrySize > 0 && logLen >= fmt.headerSize + fmt.entrySize
    ensures LastIndex(fmt, logLen) >= 0
    ensures fmt.headerSize + (LastIndex(fmt, logLen) + 1) * fmt.entrySize <= logLen
    ensures logLen < fmt.headerSize + (LastIndex(fmt, logLen) + 2) * fmt.entrySize
  {
    var q := (logLen - fmt.headerSize) / fmt.entrySize;
    DivMod(logLen - fmt.headerSize, fmt.entrySize);
    MulDistributes(q, 1, fmt.entrySize);
    if q <= 0 {
      MulMonotone(q, 0, fmt.entrySize);
    }
  }

  class FamfsLog {
    const fmt: Format
    const entries: array<seq<int>>
    var magic: int
    var logLen: nat
    var lastIndex: int
    var headerCrc: int
    var nextSeqnum: int
    var nextIndex: int
    ghost var log: seq<LogEntry>

    ghost predicate Valid()
      reads this, entries
    {
      && Faithful(fmt) && logLen >= fmt.headerSize + fmt.entrySize
      && magic == FAMFS_LOG_MAGIC && headerCrc == fmt.headerCrc(magic, logLen, lastIndex)
      && lastIndex == LastIndex(fmt, logLen) && entries.Length == lastIndex + 1
      && nextSeqnum == nextIndex == |log| <= lastIndex + 1
      && forall i :: 0 <= i < |log| ==> entries[i] == Sealed(fmt, i, log[i]) && Storable(log[i])
    }

    /** The log part of __famfs_mkfs. */
    constructor Mkfs(fmt: Format, logLen: nat)
      requires Faithful(fmt) && logLen >= fmt.headerSize + fmt.entrySize
      ensures Valid() && fresh(entries) && log == [] && this.fmt == fmt && this.logLen == logLen
    {
      EntriesFit(fmt, logLen);
      this.fmt := fmt;
      this.logLen := logLen;
      magic := FAMFS_LOG_MAGIC;
      nextSeqnum, nextIndex := 0, 0;
      lastIndex := LastIndex(fmt, logLen);
      headerCrc := fmt.headerCrc(FAMFS_LOG_MAGIC, logLen, LastIndex(fmt, logLen));
      entries := new seq<int>[LastIndex(fmt, logLen) + 1](_ => seq(fmt.words, _ => 0));
      log := [];
    }

    /** famfs_log_full */
    predicate Full()
      reads this
    {
      nextIndex > lastIndex
    }

    /** famfs_append_log: the entry goes to the next slot, earlier entries stay. */
    method Append(e: LogEntry)
      requires Valid() && !Full() && Storable(e)
      modifies this`nextSeqnum, this`nextIndex, this`log, entries
      ensures Valid() && log == old(log) + [e]
      ensures forall i :: 0 <= i < entries.Length && i != old(nextIndex) ==> entries[i] == old(entries[i])
    {
      entries[nextIndex] := Sealed(fmt, nextSeqnum, e);
      nextSeqnum := nextSeqnum + 1;
      nextIndex := nextIndex + 1;
      log := log + [e];
    }

    /** famfs_log_file_creation and famfs_log_dir_creation: refused when the log is full. */
    method Log(e: LogEntry) returns (rc: int)
      requires Valid() && Storable(e)
      modifies this`nextSeqnum, this`nextIndex, this`log, entries
      ensures Valid() && (rc == 0 <==> |old(log)| < entries.Length)
      ensures log == if rc == 0 then old(log) + [e] else old(log)
      ensures rc != 0 ==> rc == -ENOMEM && entries[..] == old(entries[..])
    {
      if Full() {
        return -ENOMEM;
      }
      Append(e);
      return 0;
    }

    /** famfs_validate_log_header */
    predicate ValidHeader()
      reads this
    {
      magic == FAMFS_LOG_MAGIC && headerCrc == fmt.headerCrc(magic, logLen, lastIndex)
    }

    /**
     __famfs_logplay on any memory that does not change meanwhile: a bad header is refused; else the
     entries before the first invalid one are played, and `ok` says whether there was none.
     */
    method Logplay(ns0: Tree) returns (ns: Tree, ok: bool, ghost played: nat)
      requires fmt.words >= 2 && 0 <= nextIndex <= entries.Length
      ensures magic != 0xbadcafef00d || headerCrc != fmt.headerCrc(magic, logLen, lastIndex) ==>
        !ok && ns == ns0 && played == 0
      ensures magic == 0xbadcafef00d && headerCrc == fmt.headerCrc(magic, logLen, lastIndex) ==>
        (ok <==> played == nextIndex)
      ensures played <= nextIndex && forall i :: 0 <= i < played ==> ValidEntry(fmt, entries[i], i)
      ensures ValidHeader() && !ok ==> played < nextIndex && !ValidEntry(fmt, entries[played], played)
      ensures ns == Replay(ns0, AllDecoded(fmt, entries[..played]))
    {
      hide Play, ValidEntry, EntryOf, Decoded;
      ns, ok, played := ns0, ValidHeader(), 0;
      assert entries[..0] == [];
      if !ok {
        return;
      }
      for i := 0 to nextIndex
        invariant played == i && forall k :: 0 <= k < i ==> ValidEntry(fmt, entries[k], k)
        invariant ns == Replay(ns0, AllDecoded(fmt, entries[..i]))
      {
        var words := entries[i];
        if !ValidEntry(fmt, words, i) {
          return ns, false, i;
        }
        SizeOfValid(fmt, words, i);
        ns := Play(ns, EntryOf(fmt, words));
        NextDecoded(fmt, entries[..], i);
        played := i + 1;
      }
    }

    /** A valid log is played in full. */
    method PlayLog(ns0: Tree) returns (ns: Tree, ok: bool)
      requires Valid()
      ensures ok && ns == Replay(ns0, log)
    {
      hide Play, Sealed, ValidEntry, EntryOf, Decoded, Storable;
      ghost var played;
      ns, ok, played := Logplay(ns0);
      forall i | 0 <= i < |log|
        ensures ValidEntry(fmt, entries[i], i) && Decoded(fmt, entries[i]) == log[i]
      {
        SealedIsValid(fmt, i, log[i]);
        SizeOfValid(fmt, entries[i], i);
      }
      assert AllDecoded(fmt, entries[..|log|]) == log;
    }
  }

  lemma NextDecoded(fmt: Format, entries: seq<seq<int>>, i: nat)
    requires i < |entries|
    ensures var all := AllDecoded(fmt, entries[..i + 1]);
      all[..i] == AllDecoded(fmt, entries[..i]) && all[i] == Decoded(fmt, entries[i])
  {
    hide Decoded;
  }

  lemma SizeOfValid(fmt: Format, words: seq<int>, index: int)
    requires ValidEntry(fmt, words, index)
    ensures |words| == fmt.words >= 2 && Decoded(fmt, words) == EntryOf(fmt, words)
  {
  }
}
