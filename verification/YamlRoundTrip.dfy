/** Parsing what was emitted gives the file metadata back, exactly for the maps that fit (src/famfs_yaml.c). */
module YamlRoundTrip {
  import opened Common
  import opened Meta
  import opened Numbers
  import opened Yaml
  import opened YamlParser

  /** Values that their C fields can have. */
  predicate Sized(e: Extent) {
    e.devindex < U64 && e.offset < U64 && e.len < U64
  }

  predicate AllSized(exts: seq<Extent>) {
    forall i :: 0 <= i < |exts| ==> Sized(exts[i])
  }

  predicate Representable(fm: FileMeta) {
    && |fm.path| < FAMFS_MAX_PATHLEN && fm.size < U64
    && fm.flags < U32 && fm.mode < U32 && fm.uid < U32 && fm.gid < U32
    && NExtents(fm.fmap) < U32 && |Extents(fm.fmap)| < U64 && AllSized(Extents(fm.fmap))
    && (fm.fmap.Interleaved? ==> fm.fmap.chunkSize < U64)
  }

  // ---------- extent lists ----------

  function AtNext(se: seq<Extent>): Filling {
    Filling(se, |se|, false, false)
  }

  lemma PairStep(key: string, text: string, rest: seq<Event>, f: Filling, max: nat)
    requires ExtentKey(key)
    ensures SimpleLoop([Scalar(key), Scalar(text)] + rest, f, max) ==
            SimpleLoop(rest, Fill(f, key, Strtoull(text)), max)
  {
    hide Strtoull, Fill;
    var es := [Scalar(key), Scalar(text)] + rest;
    assert es[2..] == rest;
    assert SimpleRound(es, f, max) == More(Fill(f, key, Strtoull(text)), rest);
  }

  lemma BodyStep(e: Extent, rest: seq<Event>, se: seq<Extent>, max: nat)
    requires Sized(e)
    ensures SimpleLoop(ExtentBody(e) + rest, AtNext(se), max) == SimpleLoop(rest, AtNext(se + [e]), max)
  {
    hide SimpleLoop, Signed, Hex, Strtoull;
    SignedRoundTrip(e.devindex);
    HexRoundTrip(e.offset);
    HexRoundTrip(e.len);
    var f1 := Fill(AtNext(se), "devindex", e.devindex);
    var f2 := Fill(f1, "offset", e.offset);
    var f3 := Fill(f2, "length", e.len);
    assert f3 == Filling(se + [e], |se|, true, true);
    hide Fill;
    var tail3 := [MappingEnd] + rest;
    var tail2 := [Scalar("length"), Scalar(Hex(e.len))] + tail3;
    var tail1 := [Scalar("offset"), Scalar(Hex(e.offset))] + tail2;
    assert ExtentBody(e) + rest == [Scalar("devindex"), Scalar(Signed(e.devindex, U64))] + tail1;
    PairStep("devindex", Signed(e.devindex, U64), tail1, AtNext(se), max);
    PairStep("offset", Hex(e.offset), tail2, f1, max);
    PairStep("length", Hex(e.len), tail3, f2, max);
    EndStep(f3, rest, max);
  }

  lemma EndStep(f: Filling, rest: seq<Event>, max: nat)
    requires f.gotOfs && f.gotLen
    ensures SimpleLoop([MappingEnd] + rest, f, max) == SimpleLoop(rest, Filling(f.se, f.index + 1, false, false), max)
  {
    var es := [MappingEnd] + rest;
    assert es[1..] == rest;
    assert SimpleRound(es, f, max) == More(Filling(f.se, f.index + 1, false, false), rest);
  }

  lemma StartStep(f: Filling, rest: seq<Event>, max: nat)
    ensures SimpleLoop([MappingStart] + rest, f, max) ==
            if f.index >= max then Err(-EOVERFLOW) else SimpleLoop(rest, f, max)
  {
    var es := [MappingStart] + rest;
    assert es[1..] == rest;
    assert SimpleRound(es, f, max) == if f.index >= max then Stop(-EOVERFLOW) else More(f, rest);
  }

  lemma CloseStep(f: Filling, rest: seq<Event>, max: nat)
    ensures SimpleLoop([SequenceEnd, MappingEnd] + rest, f, max) == Ok(f, rest)
  {
    var es := [SequenceEnd, MappingEnd] + rest;
    assert es[1..][1..] == rest;
    assert SimpleRound(es, f, max) == Done(f, es[1..]);
  }

  lemma ListSplit(exts: seq<Extent>, rest: seq<Event>)
    ensures ListEvents(exts) + [SequenceEnd, MappingEnd] + rest ==
      if exts == [] then [SequenceEnd, MappingEnd] + rest
      else [MappingStart] + (ExtentBody(exts[0]) + (ListEvents(exts[1..]) + [SequenceEnd, MappingEnd] + rest))
  {
    hide ExtentBody;
  }

  /** A list that is followed by its end: all extents are read, or the limit is hit. */
  lemma {:induction false} ListStep(exts: seq<Extent>, rest: seq<Event>, se: seq<Extent>, max: nat)
    requires AllSized(exts) && |se| <= max
    ensures SimpleLoop(ListEvents(exts) + [SequenceEnd, MappingEnd] + rest, AtNext(se), max)
            == if |se| + |exts| <= max then Ok(AtNext(se + exts), rest) else Err(-EOVERFLOW)
    decreases |exts|
  {
    hide SimpleLoop, ExtentBody, ListEvents, Sized;
    if exts == [] {
      ListSplit(exts, rest);
      CloseStep(AtNext(se), rest, max);
      assert se + exts == se;
    } else {
      var e, tail := exts[0], ListEvents(exts[1..]) + [SequenceEnd, MappingEnd] + rest;
      ListSplit(exts, rest);
      StartStep(AtNext(se), ExtentBody(e) + tail, max);
      BodyStep(e, tail, se, max);
      if |se| < max {
        ListStep(exts[1..], rest, se + [e], max);
        assert se + [e] + exts[1..] == se + exts;
      }
    }
  }

  /** An emitted list is read back if and only if it has between one and `max` extents. */
  lemma {:induction false} SimpleRoundTrip(exts: seq<Extent>, rest: seq<Event>, max: nat)
    requires AllSized(exts) && max >= 1
    ensures ParseSimple([SequenceStart] + ListEvents(exts) + [SequenceEnd, MappingEnd] + rest, [], max)
            == if exts == [] then Err(-1) else if |exts| <= max then Ok(AtNext(exts), rest) else Err(-EOVERFLOW)
  {
    hide SimpleLoop, ExtentBody;
    var es := [SequenceStart] + ListEvents(exts) + [SequenceEnd, MappingEnd] + rest;
    if exts == [] {
      assert es[1..][0] == SequenceEnd;
    } else {
      var e, tail := exts[0], ListEvents(exts[1..]) + [SequenceEnd, MappingEnd] + rest;
      assert es == [SequenceStart, MappingStart] + (ExtentBody(e) + tail);
      assert es[2..] == ExtentBody(e) + tail;
      BodyStep(e, tail, [], max);
      assert [] + [e] == [e];
      ListStep(exts[1..], rest, [e], max);
      assert [e] + exts[1..] == exts;
    }
  }

  // ---------- the interleaved extent ----------

  lemma StripePairStep(key: string, text: string, rest: seq<Event>, f: Striping, max: nat)
    requires key == "chunk_size" || key == "nstrips"
    ensures StripedLoop([Scalar(key), Scalar(text)] + rest, f, max) ==
            StripedLoop(rest, FillStripe(f, key, Strtoull(text)), max)
  {
    hide Strtoull, FillStripe;
    var es := [Scalar(key), Scalar(text)] + rest;
    assert es[2..] == rest;
    assert StripedRound(es, f, max) == More(FillStripe(f, key, Strtoull(text)), rest);
  }

  lemma StripsStep(es: seq<Event>, f: Striping, max: nat)
    ensures StripedLoop([Scalar("simple_ext_list")] + es, f, max) ==
      match StripsRound(es, f, max)
      case More(g, rest) => StripedLoop(rest, g, max)
      case Done(g, rest) => Err(-1)
      case Stop(rc) => Err(rc)
  {
    hide StripsRound;
    var all := [Scalar("simple_ext_list")] + es;
    assert all[1..] == es;
    assert StripedRound(all, f, max) == StripsRound(es, f, max);
    NeverDone(es, f, max);
  }

  lemma NeverDone(es: seq<Event>, f: Striping, max: nat)
    ensures !StripsRound(es, f, max).Done?
  {
    hide ParseSimple;
  }

  lemma StripedClose(f: Striping, rest: seq<Event>, max: nat)
    ensures StripedLoop([SequenceEnd, MappingEnd] + rest, f, max) == Ok(f, rest)
  {
    var es := [SequenceEnd, MappingEnd] + rest;
    assert es[1..][1..] == rest;
    assert StripedRound(es, f, max) == Done(f, es[1..]);
  }

  function StripeList(strips: seq<Extent>, rest: seq<Event>): seq<Event> {
    [SequenceStart] + ListEvents(strips) + [SequenceEnd, MappingEnd] + ([SequenceEnd, MappingEnd] + rest)
  }

  function StripeBody(chunkSize: nat, strips: seq<Extent>, rest: seq<Event>): seq<Event> {
    [Scalar("nstrips"), Scalar(Signed(|strips|, U64))]
    + ([Scalar("chunk_size"), Scalar(Hex(chunkSize))] + ([Scalar("simple_ext_list")] + StripeList(strips, rest)))
  }

  lemma {:induction false} StripsRoundTrip(chunkSize: nat, strips: seq<Extent>, rest: seq<Event>, max: nat)
    requires AllSized(strips) && max >= 1
    ensures StripsRound(StripeList(strips, rest), Striping([Stripe(|strips|, chunkSize, [])], 0), max)
            == if strips == [] then Stop(-1)
               else if |strips| <= max
               then More(Striping([Stripe(|strips|, chunkSize, strips)], 1), [SequenceEnd, MappingEnd] + rest)
               else Stop(-EOVERFLOW)
  {
    SimpleRoundTrip(strips, [SequenceEnd, MappingEnd] + rest, max);
    hide ParseSimple, ListEvents;
    var e, done := Stripe(|strips|, chunkSize, []), Stripe(|strips|, chunkSize, strips);
    assert StoreStripe([e], 0, done) == [done];
  }

  lemma {:induction false} StripedRoundTrip(chunkSize: nat, strips: seq<Extent>, rest: seq<Event>, max: nat)
    requires AllSized(strips) && max >= 1 && chunkSize < U64 && |strips| < U64
    ensures StripedLoop(StripeBody(chunkSize, strips, rest), Striping([], 0), max)
            == if strips == [] then Err(-1)
               else if |strips| <= max then Ok(Striping([Stripe(|strips|, chunkSize, strips)], 1), rest)
               else Err(-EOVERFLOW)
  {
    hide StripedLoop, StripsRound, Signed, Hex, Strtoull, StripeList;
    SignedRoundTrip(|strips|);
    HexRoundTrip(chunkSize);
    var list := StripeList(strips, rest);
    var f1 := FillStripe(Striping([], 0), "nstrips", |strips|);
    var f2 := FillStripe(f1, "chunk_size", chunkSize);
    assert f2 == Striping([Stripe(|strips|, chunkSize, [])], 0);
    hide FillStripe;
    var tail := [Scalar("chunk_size"), Scalar(Hex(chunkSize))] + ([Scalar("simple_ext_list")] + list);
    StripePairStep("nstrips", Signed(|strips|, U64), tail, Striping([], 0), max);
    StripePairStep("chunk_size", Hex(chunkSize), [Scalar("simple_ext_list")] + list, f1, max);
    StripsStep(list, f2, max);
    StripsRoundTrip(chunkSize, strips, rest, max);
    StripedClose(Striping([Stripe(|strips|, chunkSize, strips)], 1), rest, max);
  }

  // ---------- the file section ----------

  lemma FieldStep(key: string, text: string, rest: seq<Event>, fm: FileState, maxE: nat, maxS: nat)
    requires FieldKey(key)
    ensures FileLoop([Scalar(key), Scalar(text)] + rest, fm, maxE, maxS) ==
            FileLoop(rest, SetField(fm, key, text), maxE, maxS)
  {
    hide SetField;
    var es := [Scalar(key), Scalar(text)] + rest;
    assert es[2..] == rest;
    assert FileRound(es, fm, maxE, maxS) == More(SetField(fm, key, text), rest);
  }

  /** What the fields before the map are read as. */
  function HeadState(fm: FileMeta): FileState {
    FileState(fm.path, fm.size, fm.flags, fm.mode, fm.uid, fm.gid, NExtents(fm.fmap), false, [], [])
  }

  const Zeroed := FileState("", 0, 0, 0, 0, 0, 0, false, [], [])

  lemma Sets(fm: FileState, text: string)
    ensures |text| < FAMFS_MAX_PATHLEN ==> SetField(fm, "path", text) == fm.(path := text)
    ensures SetField(fm, "size", text) == fm.(size := Strtoull(text))
    ensures SetField(fm, "flags", text) == fm.(flags := Strtoull(text) % U32)
    ensures SetField(fm, "mode", text) == fm.(mode := Strtoull(text) % U32)
    ensures SetField(fm, "uid", text) == fm.(uid := Strtoull(text) % U32)
    ensures SetField(fm, "gid", text) == fm.(gid := Strtoull(text) % U32)
    ensures SetField(fm, "nextents", text) == fm.(nextents := Strtoull(text) % U32)
  {
    hide Strtoull;
    var keys := ["path", "size", "flags", "mode", "uid", "gid"];
    assert keys[0][0] == 'p' && keys[1][0] == 's' && keys[2][0] == 'f';
    assert keys[3][0] == 'm' && keys[4][0] == 'u' && keys[5][0] == 'g';
  }

  /** Each 32-bit field reads back what was printed for it. */
  lemma Fields32(fm: FileState, x: nat)
    requires x < U32
    ensures var text := Signed(x, U32);
      && SetField(fm, "flags", text) == fm.(flags := x) && SetField(fm, "uid", text) == fm.(uid := x)
      && SetField(fm, "gid", text) == fm.(gid := x) && SetField(fm, "nextents", text) == fm.(nextents := x)
    ensures SetField(fm, "mode", Octal(x)) == fm.(mode := x)
  {
    hide SetField, Signed, Octal, Strtoull;
    SignedRoundTrip32(x);
    OctalRoundTrip(x);
    Sets(fm, Signed(x, U32));
    Sets(fm, Octal(x));
  }

  lemma FieldSize(fm: FileState, x: nat)
    requires x < U64
    ensures SetField(fm, "size", Signed(x, U64)) == fm.(size := x)
  {
    hide SetField, Signed, Strtoull;
    SignedRoundTrip(x);
    Sets(fm, Signed(x, U64));
  }

  lemma HeadFields(fm: FileMeta)
    requires Representable(fm)
    ensures var a := SetField(Zeroed, "path", fm.path);
      var b := SetField(a, "size", Signed(fm.size, U64));
      var c := SetField(b, "flags", Signed(fm.flags, U32));
      var d := SetField(c, "mode", Octal(fm.mode));
      var e := SetField(d, "uid", Signed(fm.uid, U32));
      var f := SetField(e, "gid", Signed(fm.gid, U32));
      SetField(f, "nextents", Signed(NExtents(fm.fmap), U32)) == HeadState(fm)
  {
    hide Signed, Octal, SetField, NExtents, AllSized;
    Sets(Zeroed, fm.path);
    var a := Zeroed.(path := fm.path);
    FieldSize(a, fm.size);
    var b := a.(size := fm.size);
    Fields32(b, fm.flags);
    var c := b.(flags := fm.flags);
    Fields32(c, fm.mode);
    var d := c.(mode := fm.mode);
    Fields32(d, fm.uid);
    var e := d.(uid := fm.uid);
    Fields32(e, fm.gid);
    Fields32(e.(gid := fm.gid), NExtents(fm.fmap));
  }

  lemma HeadStep(fm: FileMeta, rest: seq<Event>, maxE: nat, maxS: nat)
    requires Representable(fm)
    ensures FileLoop(HeadEvents(fm) + rest, Zeroed, maxE, maxS) == FileLoop(rest, HeadState(fm), maxE, maxS)
  {
    hide FileLoop, Signed, Octal, SetField, Representable;
    var a := SetField(Zeroed, "path", fm.path);
    var b := SetField(a, "size", Signed(fm.size, U64));
    var c := SetField(b, "flags", Signed(fm.flags, U32));
    var d := SetField(c, "mode", Octal(fm.mode));
    var e := SetField(d, "uid", Signed(fm.uid, U32));
    var f := SetField(e, "gid", Signed(fm.gid, U32));
    var t6 := [Scalar("nextents"), Scalar(Signed(NExtents(fm.fmap), U32))] + rest;
    var t5 := [Scalar("gid"), Scalar(Signed(fm.gid, U32))] + t6;
    var t4 := [Scalar("uid"), Scalar(Signed(fm.uid, U32))] + t5;
    var t3 := [Scalar("mode"), Scalar(Octal(fm.mode))] + t4;
    var t2 := [Scalar("flags"), Scalar(Signed(fm.flags, U32))] + t3;
    var t1 := [Scalar("size"), Scalar(Signed(fm.size, U64))] + t2;
    assert HeadEvents(fm) + rest == [Scalar("path"), Scalar(fm.path)] + t1;
    FieldStep("path", fm.path, t1, Zeroed, maxE, maxS);
    FieldStep("size", Signed(fm.size, U64), t2, a, maxE, maxS);
    FieldStep("flags", Signed(fm.flags, U32), t3, b, maxE, maxS);
    FieldStep("mode", Octal(fm.mode), t4, c, maxE, maxS);
    FieldStep("uid", Signed(fm.uid, U32), t5, d, maxE, maxS);
    FieldStep("gid", Signed(fm.gid, U32), t6, e, maxE, maxS);
    FieldStep("nextents", Signed(NExtents(fm.fmap), U32), rest, f, maxE, maxS);
    HeadFields(fm);
  }

  // ---------- whole documents ----------

  /** What a whole file is read as. */
  function StateOf(fm: FileMeta): FileState {
    match fm.fmap
    case Simple(exts) => HeadState(fm).(se := exts)
    case Interleaved(chunkSize, strips) =>
      HeadState(fm).(interleaved := true, ie := [Stripe(|strips|, chunkSize, strips)])
  }

  /** The metadata that a filled structure holds. */
  function MetaOf(s: FileState): FileMeta {
    FileMeta(s.path, s.size, s.flags, s.mode, s.uid, s.gid,
             if s.interleaved && s.ie != [] && s.ie[0].nstrips <= |s.ie[0].strips|
             then Interleaved(s.ie[0].chunkSize, s.ie[0].strips[..s.ie[0].nstrips])
             else Simple(if s.nextents <= |s.se| then s.se[..s.nextents] else s.se))
  }

  const Tail := [MappingEnd, DocumentEnd, StreamEnd]

  lemma ListKeyStep(striped: bool, es: seq<Event>, fm: FileState, maxE: nat, maxS: nat)
    ensures var key := if striped then "striped_ext_list" else "simple_ext_list";
      FileLoop([Scalar(key)] + es, fm, maxE, maxS) ==
      match ListRound(es, fm, striped, maxE, maxS)
      case More(g, rest) => FileLoop(rest, g, maxE, maxS)
      case Done(g, rest) => Ok(g, rest)
      case Stop(rc) => Err(rc)
  {
    hide ListRound;
    var key := if striped then "striped_ext_list" else "simple_ext_list";
    var all := [Scalar(key)] + es;
    assert all[1..] == es;
    assert key[0] == 's' && (striped ==> key[1] == 't') && (!striped ==> key[1] == 'i' && key[2] == 'm');
    assert !FieldKey(key) by {
      assert "size"[2] == 'z';
    }
    assert FileRound(all, fm, maxE, maxS) == ListRound(es, fm, striped, maxE, maxS);
  }

  lemma TailStep(fm: FileState, maxE: nat, maxS: nat)
    ensures FileLoop(Tail, fm, maxE, maxS) == Ok(fm, [DocumentEnd, StreamEnd])
  {
    assert Tail[1..] == [DocumentEnd, StreamEnd];
    assert FileRound(Tail, fm, maxE, maxS) == Done(fm, [DocumentEnd, StreamEnd]);
  }

  function Outcome(exts: seq<Extent>, max: nat, done: Parsed<FileState>): Parsed<FileState> {
    if exts == [] then Err(-1) else if |exts| <= max then done else Err(-EOVERFLOW)
  }

  lemma SimpleMapEvents(fmap: Fmap)
    requires fmap.Simple?
    ensures MapEvents(fmap) + [MappingEnd] + Tail ==
            [Scalar("simple_ext_list")] + ([SequenceStart] + ListEvents(fmap.exts) + [SequenceEnd, MappingEnd] + Tail)
  {
    hide ListEvents;
  }

  lemma {:induction false} SimpleMapStep(fm: FileMeta, maxE: nat, maxS: nat)
    requires Representable(fm) && fm.fmap.Simple? && maxE >= 1
    ensures FileLoop(MapEvents(fm.fmap) + [MappingEnd] + Tail, HeadState(fm), maxE, maxS)
            == Outcome(fm.fmap.exts, maxE, Ok(StateOf(fm), [DocumentEnd, StreamEnd]))
  {
    var exts := fm.fmap.exts;
    var es := [SequenceStart] + ListEvents(exts) + [SequenceEnd, MappingEnd] + Tail;
    SimpleRoundTrip(exts, Tail, maxE);
    SimpleMapEvents(fm.fmap);
    hide FileLoop, ListEvents, ParseSimple, AllSized, MapEvents, Tail;
    ListKeyStep(false, es, HeadState(fm), maxE, maxS);
    TailStep(StateOf(fm), maxE, maxS);
  }

  lemma StripedShape(chunkSize: nat, strips: seq<Extent>)
    ensures StripedEvents(chunkSize, strips) + [MappingEnd] + Tail ==
            [Scalar("striped_ext_list")] + ([SequenceStart, MappingStart] + StripeBody(chunkSize, strips, Tail))
  {
    hide ListEvents, Signed, Hex;
  }

  lemma {:induction false} StripedMapStep(fm: FileMeta, maxE: nat, maxS: nat)
    requires Representable(fm) && fm.fmap.Interleaved? && maxS >= 1
    ensures FileLoop(MapEvents(fm.fmap) + [MappingEnd] + Tail, HeadState(fm), maxE, maxS)
            == Outcome(fm.fmap.strips, maxS, Ok(StateOf(fm), [DocumentEnd, StreamEnd]))
  {
    var strips, chunkSize := fm.fmap.strips, fm.fmap.chunkSize;
    hide FileLoop, ListEvents, AllSized, StripedLoop, StripeBody, StripedEvents;
    var es := [SequenceStart, MappingStart] + StripeBody(chunkSize, strips, Tail);
    StripedShape(chunkSize, strips);
    ListKeyStep(true, es, HeadState(fm), maxE, maxS);
    assert es[2..] == StripeBody(chunkSize, strips, Tail);
    StripedRoundTrip(chunkSize, strips, Tail, maxS);
    TailStep(StateOf(fm), maxE, maxS);
  }

  /**
   Parsing what famfs_emit_file_yaml emitted for any file metadata: it consumes every event and
   fills the structure with exactly what was emitted if the map has between one extent and the
   limit; an empty list and a longer one are refused, each with its own error.
   */
  lemma {:induction false} ParseUndoesEmit(fm: FileMeta, maxE: nat, maxS: nat)
    requires Representable(fm) && maxE >= 1 && maxS >= 1
    ensures ParseShadow(FileEvents(fm), Zeroed, maxE, maxS)
            == Outcome(Extents(fm.fmap), if fm.fmap.Simple? then maxE else maxS, Ok(StateOf(fm), []))
  {
    hide FileLoop, HeadEvents, MapEvents, AllSized;
    var body := HeadEvents(fm) + (MapEvents(fm.fmap) + [MappingEnd] + Tail);
    var es := FileEvents(fm);
    assert es == [StreamStart, DocumentStart, MappingStart, Scalar("file"), MappingStart] + body;
    assert es[..3] == [StreamStart, DocumentStart, MappingStart] && es[4..][1..] == body;
    HeadStep(fm, MapEvents(fm.fmap) + [MappingEnd] + Tail, maxE, maxS);
    if fm.fmap.Simple? {
      SimpleMapStep(fm, maxE, maxS);
    } else {
      StripedMapStep(fm, maxE, maxS);
    }
  }

  /** The filled structure is the metadata. */
  lemma StateIsMeta(fm: FileMeta)
    ensures MetaOf(StateOf(fm)) == fm
  {
    match fm.fmap
    case Simple(exts) => assert exts[..|exts|] == exts;
    case Interleaved(_, strips) => assert strips[..|strips|] == strips;
  }

  /** famfs_test_shadow_yaml after the emitter: the read-back is identical exactly for maps of 1 to 16 extents. */
  method TestShadowYaml(fm: FileMeta) returns (ok: bool)
    requires Representable(fm)
    ensures ok <==> 1 <= |Extents(fm.fmap)| <= FAMFS_MAX_SIMPLE_EXTENTS
  {
    hide FileEvents, ParseShadow, StateOf, MetaOf, Representable;
    var emitter := new Emitter();
    emitter.EmitFileYaml(fm);
    assert [] + FileEvents(fm) == FileEvents(fm);
    var parser := new Parser(emitter.events);
    var r := parser.ParseShadowYaml(Zeroed, FAMFS_MAX_SIMPLE_EXTENTS, FAMFS_MAX_SIMPLE_EXTENTS);
    ParseUndoesEmit(fm, FAMFS_MAX_SIMPLE_EXTENTS, FAMFS_MAX_SIMPLE_EXTENTS);
    StateIsMeta(fm);
    ok := r.Ok? && MetaOf(r.value) == fm;
  }
}
