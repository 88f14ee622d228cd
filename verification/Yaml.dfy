/** File metadata as a sequence of YAML events, written and read back (src/famfs_yaml.c). */
module Yaml {
  import opened Common
  import opened Meta
  import opened Numbers

  /** The libyaml events that the code produces or tells apart. */
  datatype Event =
    | StreamStart | StreamEnd | DocumentStart | DocumentEnd
    | SequenceStart | SequenceEnd | MappingStart | MappingEnd
    | Scalar(value: string)

  // ---------- what is emitted ----------

  function ExtentBody(e: Extent): seq<Event> {
    [Scalar("devindex"), Scalar(Signed(e.devindex, U64)), Scalar("offset"), Scalar(Hex(e.offset)),
     Scalar("length"), Scalar(Hex(e.len)), MappingEnd]
  }

  function ListEvents(exts: seq<Extent>): seq<Event> {
    if exts == [] then [] else [MappingStart] + ExtentBody(exts[0]) + ListEvents(exts[1..])
  }

  function SimpleEvents(exts: seq<Extent>): seq<Event> {
    [Scalar("simple_ext_list"), SequenceStart] + ListEvents(exts) + [SequenceEnd]
  }

  function StripedEvents(chunkSize: nat, strips: seq<Extent>): seq<Event> {
    [Scalar("striped_ext_list"), SequenceStart, MappingStart, Scalar("nstrips"), Scalar(Signed(|strips|, U64)),
     Scalar("chunk_size"), Scalar(Hex(chunkSize))] + SimpleEvents(strips) + [MappingEnd, SequenceEnd]
  }

  function MapEvents(fmap: Fmap): seq<Event> {
    match fmap
    case Simple(exts) => SimpleEvents(exts)
    case Interleaved(chunkSize, strips) => StripedEvents(chunkSize, strips)
  }

  /** fmap_nextents; it shares its place with fmap_niext, which is 1. */
  function NExtents(fmap: Fmap): nat {
    match fmap
    case Simple(exts) => |exts|
    case Interleaved(_, _) => 1
  }

  function HeadEvents(fm: FileMeta): seq<Event> {
    [Scalar("path"), Scalar(fm.path), Scalar("size"), Scalar(Signed(fm.size, U64)),
     Scalar("flags"), Scalar(Signed(fm.flags, U32)), Scalar("mode"), Scalar(Octal(fm.mode)),
     Scalar("uid"), Scalar(Signed(fm.uid, U32)), Scalar("gid"), Scalar(Signed(fm.gid, U32)),
     Scalar("nextents"), Scalar(Signed(NExtents(fm.fmap), U32))]
  }

  function FileEvents(fm: FileMeta): seq<Event> {
    [StreamStart, DocumentStart, MappingStart, Scalar("file"), MappingStart] + HeadEvents(fm) + MapEvents(fm.fmap)
    + [MappingEnd, MappingEnd, DocumentEnd, StreamEnd]
  }

  lemma {:induction false} ListSnoc(exts: seq<Extent>, e: Extent)
    ensures ListEvents(exts + [e]) == ListEvents(exts) + [MappingStart] + ExtentBody(e)
  {
    if exts == [] {
      assert exts + [e] == [e] && [e][1..] == [];
    } else {
      assert (exts + [e])[1..] == exts[1..] + [e];
      ListSnoc(exts[1..], e);
    }
  }

  class Emitter {
    var events: seq<Event>

    constructor ()
      ensures events == []
    {
      events := [];
    }

    method Emit(e: Event)
      modifies this
      ensures events == old(events) + [e]
    {
      events := events + [e];
    }

    method EmitPair(key: string, value: string)
      modifies this
      ensures events == old(events) + [Scalar(key), Scalar(value)]
    {
      Emit(Scalar(key));
      Emit(Scalar(value));
    }

    method EmitExtent(e: Extent)
      modifies this
      ensures events == old(events) + [MappingStart] + ExtentBody(e)
    {
      hide Signed, Hex;
      Emit(MappingStart);
      EmitPair("devindex", Signed(e.devindex, U64));
      EmitPair("offset", Hex(e.offset));
      EmitPair("length", Hex(e.len));
      Emit(MappingEnd);
    }

    /** __famfs_emit_yaml_simple_ext_list */
    method EmitSimpleExtList(se: seq<Extent>)
      modifies this
      ensures events == old(events) + SimpleEvents(se)
    {
      hide ExtentBody;
      Emit(Scalar("simple_ext_list"));
      Emit(SequenceStart);
      ghost var before := events;
      assert se[..0] == [];
      for i := 0 to |se|
        invariant events == before + ListEvents(se[..i])
      {
        EmitExtent(se[i]);
        ListSnoc(se[..i], se[i]);
        assert se[..i] + [se[i]] == se[..i + 1];
      }
      assert se[..|se|] == se;
      Emit(SequenceEnd);
    }

    /** __famfs_emit_yaml_striped_ext_list, for the one interleaved extent of a map. */
    method EmitStripedExtList(chunkSize: nat, strips: seq<Extent>)
      modifies this
      ensures events == old(events) + StripedEvents(chunkSize, strips)
    {
      hide Signed, Hex, SimpleEvents;
      Emit(Scalar("striped_ext_list"));
      Emit(SequenceStart);
      Emit(MappingStart);
      EmitPair("nstrips", Signed(|strips|, U64));
      EmitPair("chunk_size", Hex(chunkSize));
      EmitSimpleExtList(strips);
      Emit(MappingEnd);
      Emit(SequenceEnd);
    }

    /** __famfs_emit_yaml_file_section */
    method EmitFileSection(fm: FileMeta)
      modifies this
      ensures events == old(events) + HeadEvents(fm) + MapEvents(fm.fmap)
    {
      hide Signed, Hex, Octal, SimpleEvents, StripedEvents;
      EmitPair("path", fm.path);
      EmitPair("size", Signed(fm.size, U64));
      EmitPair("flags", Signed(fm.flags, U32));
      EmitPair("mode", Octal(fm.mode));
      EmitPair("uid", Signed(fm.uid, U32));
      EmitPair("gid", Signed(fm.gid, U32));
      EmitPair("nextents", Signed(NExtents(fm.fmap), U32));
      match fm.fmap
      case Simple(exts) => EmitSimpleExtList(exts);
      case Interleaved(chunkSize, strips) => EmitStripedExtList(chunkSize, strips);
    }

    /** famfs_emit_file_yaml */
    method EmitFileYaml(fm: FileMeta)
      modifies this
      ensures events == old(events) + FileEvents(fm)
    {
      hide HeadEvents, MapEvents;
      Emit(StreamStart);
      Emit(DocumentStart);
      Emit(MappingStart);
      Emit(Scalar("file"));
      Emit(MappingStart);
      EmitFileSection(fm);
      Emit(MappingEnd);
      Emit(MappingEnd);
      Emit(DocumentEnd);
      Emit(StreamEnd);
    }
  }
}
