/** What each key of the YAML means, and what is refused (src/famfs_yaml.c). */
module YamlKeys {
  import opened Common
  import opened Meta
  import opened Numbers
  import opened Yaml
  import opened YamlParser
  import opened YamlRoundTrip

  /** Which field of the extent being filled each key sets. */
  lemma ExtentSets(f: Filling, v: nat)
    ensures var i, e := f.index, Entry(f.se, f.index);
      && Fill(f, "offset", v) == f.(se := Store(f.se, i, Extent(e.devindex, v, e.len)), gotOfs := true)
      && Fill(f, "length", v) == f.(se := Store(f.se, i, Extent(e.devindex, e.offset, v)), gotLen := true)
      && Fill(f, "devindex", v) == f.(se := Store(f.se, i, Extent(v, e.offset, e.len)))
  {
    assert "offset"[0] == 'o' && "length"[0] == 'l' && "devindex"[0] == 'd';
  }

  /** Which field of the interleaved extent being filled each key sets. */
  lemma StripeSets(f: Striping, v: nat)
    ensures var i, e := f.index, StripeAt(f.ie, f.index);
      && FillStripe(f, "chunk_size", v) == f.(ie := StoreStripe(f.ie, i, Stripe(e.nstrips, v, e.strips)))
      && FillStripe(f, "nstrips", v) == f.(ie := StoreStripe(f.ie, i, Stripe(v, e.chunkSize, e.strips)))
  {
    assert "chunk_size"[0] == 'c' && "nstrips"[0] == 'n';
  }

  /** Keys and values of one extent. */
  function PairEvents(pairs: seq<(string, string)>): seq<Event> {
    if pairs == [] then [] else [Scalar(pairs[0].0), Scalar(pairs[0].1)] + PairEvents(pairs[1..])
  }

  /** An extent whose keys come in another order than they are written in. */
  lemma AnyOrder(o: string, l: string, d: string, rest: seq<Event>, se: seq<Extent>, max: nat)
    ensures SimpleLoop([Scalar("length"), Scalar(l)] + ([Scalar("offset"), Scalar(o)] +
                       ([Scalar("devindex"), Scalar(d)] + ([MappingEnd] + rest))), AtNext(se), max) ==
            SimpleLoop(rest, AtNext(se + [Extent(Strtoull(d), Strtoull(o), Strtoull(l))]), max)
  {
    hide SimpleLoop, Strtoull;
    var x, y, z, i := Strtoull(d), Strtoull(o), Strtoull(l), |se|;
    var f0 := AtNext(se);
    var f1, f2, f3 := Fill(f0, "length", z), Fill(Fill(f0, "length", z), "offset", y),
        Fill(Fill(Fill(f0, "length", z), "offset", y), "devindex", x);
    var tail3 := [MappingEnd] + rest;
    var tail2 := [Scalar("devindex"), Scalar(d)] + tail3;
    var tail1 := [Scalar("offset"), Scalar(o)] + tail2;
    PairStep("length", l, tail1, f0, max);
    PairStep("offset", o, tail2, f1, max);
    PairStep("devindex", d, tail3, f2, max);
    ExtentSets(f0, z);
    ExtentSets(f1, y);
    ExtentSets(f2, x);
    hide Fill;
    EndStep(f3, rest, max);
    assert f1.se == se + [Extent(0, 0, z)];
    assert f2.se == se + [Extent(0, y, z)];
    assert f3.se == se + [Extent(x, y, z)];
  }

  ghost predicate Without(pairs: seq<(string, string)>, key: string) {
    forall i :: 0 <= i < |pairs| ==> ExtentKey(pairs[i].0) && pairs[i].0 != key
  }

  /** An extent without an offset, or without a length, is refused, whatever else it has. */
  lemma {:induction false} Incomplete(pairs: seq<(string, string)>, key: string, rest: seq<Event>, f: Filling, max: nat)
    requires (key == "offset" && !f.gotOfs) || (key == "length" && !f.gotLen)
    requires Without(pairs, key)
    ensures SimpleLoop(PairEvents(pairs) + ([MappingEnd] + rest), f, max) == Err(-EINVAL)
    decreases |pairs|
  {
    var end := [MappingEnd] + rest;
    if pairs == [] {
      assert PairEvents(pairs) + end == end;
      assert end[0] == MappingEnd;
    } else {
      var (k, text) := pairs[0];
      var v := Strtoull(text);
      hide SimpleLoop, Strtoull;
      assert PairEvents(pairs) + end == [Scalar(k), Scalar(text)] + (PairEvents(pairs[1..]) + end);
      PairStep(k, text, PairEvents(pairs[1..]) + end, f, max);
      ExtentSets(f, v);
      Incomplete(pairs[1..], key, rest, Fill(f, k, v), max);
    }
  }

  /** A key that the file section does not know is refused. */
  lemma UnknownKey(key: string, rest: seq<Event>, fm: FileState, maxE: nat, maxS: nat)
    requires !FieldKey(key) && key != "simple_ext_list" && key != "striped_ext_list"
    ensures FileLoop([Scalar(key)] + rest, fm, maxE, maxS) == Err(-EINVAL)
  {
    var es := [Scalar(key)] + rest;
    assert es[0] == Scalar(key);
  }

  /** A list with another number of extents than announced is refused. */
  lemma WrongCount(exts: seq<Extent>, rest: seq<Event>, fm: FileState, maxE: nat, maxS: nat)
    requires AllSized(exts) && 1 <= |exts| <= maxE && fm.nextents != |exts| && fm.se == []
    ensures FileLoop([Scalar("simple_ext_list")] +
                     ([SequenceStart] + ListEvents(exts) + [SequenceEnd, MappingEnd] + rest), fm, maxE, maxS) ==
            Err(-EINVAL)
  {
    var list := [SequenceStart] + ListEvents(exts) + [SequenceEnd, MappingEnd] + rest;
    SimpleRoundTrip(exts, rest, maxE);
    hide ParseSimple, ParseStriped, ListEvents;
    var es := [Scalar("simple_ext_list")] + list;
    assert es[0] == Scalar("simple_ext_list") && es[1..] == list;
    assert "simple_ext_list"[0] == 's' && "simple_ext_list"[1] == 'i' && |"simple_ext_list"| == 15;
    assert !FieldKey("simple_ext_list") && "simple_ext_list" != "striped_ext_list";
    assert ListRound(list, fm, false, maxE, maxS) == Stop(-EINVAL);
  }

  lemma SampleNumbers()
    ensures Signed(0, U64) == "0" && Signed(1, U32) == "1" && Signed(2, U64) == "2" && Signed(2, U32) == "2"
    ensures Signed(9, U64) == "9" && Signed(9, U32) == "9" && Signed(7, U32) == "7"
    ensures Octal(36) == "044" && Hex(32) == "0x20" && Hex(48) == "0x30" && Hex(64) == "0x40"
  {
    assert Print(0, 10) == "0" && Print(1, 10) == "1" && Print(2, 10) == "2" && Print(9, 10) == "9";
    assert Print(7, 10) == "7" && Print(4, 8) == "4" && Print(36, 8) == "4" + "4";
    assert Print(2, 16) == "2" && Print(3, 16) == "3" && Print(4, 16) == "4";
    assert Print(32, 16) == "2" + "0" && Print(48, 16) == "3" + "0" && Print(64, 16) == "4" + "0";
  }

  /** The events of the fields of a file, one by one. */
  lemma SampleHead(fm: FileMeta)
    requires fm == FileMeta("f", 9, 7, 36, 2, 9, Interleaved(32, [Extent(0, 48, 32), Extent(0, 64, 32)]))
    ensures HeadEvents(fm) ==
      [Scalar("path"), Scalar("f"), Scalar("size"), Scalar("9"), Scalar("flags"), Scalar("7"),
       Scalar("mode"), Scalar("044"), Scalar("uid"), Scalar("2"), Scalar("gid"), Scalar("9"),
       Scalar("nextents"), Scalar("1")]
  {
    SampleNumbers();
    hide Signed, Octal, Hex;
  }

  lemma SampleExtent(e: Extent)
    requires e == Extent(2, 48, 32)
    ensures SimpleEvents([e]) ==
      [Scalar("simple_ext_list"), SequenceStart,
       MappingStart, Scalar("devindex"), Scalar("2"), Scalar("offset"), Scalar("0x30"),
       Scalar("length"), Scalar("0x20"), MappingEnd,
       SequenceEnd]
  {
    SampleNumbers();
    hide Signed, Octal, Hex;
    assert [e][1..] == [];
    assert ListEvents([e]) == [MappingStart] + ExtentBody(e) + [];
  }

  lemma SampleStripes(strips: seq<Extent>)
    requires |strips| == 2
    ensures StripedEvents(32, strips) ==
      [Scalar("striped_ext_list"), SequenceStart, MappingStart,
       Scalar("nstrips"), Scalar("2"), Scalar("chunk_size"), Scalar("0x20")] + SimpleEvents(strips)
      + [MappingEnd, SequenceEnd]
  {
    SampleNumbers();
    hide Signed, Octal, Hex, SimpleEvents;
  }

  /** A document whose one section is not called "file" leaves the structure as it was. */
  lemma OtherSection(name: string, fm: FileState, maxE: nat, maxS: nat)
    requires name != "file"
    ensures ParseShadow([StreamStart, DocumentStart, MappingStart, Scalar(name), DocumentEnd, StreamEnd],
                        fm, maxE, maxS) == Ok(fm, [])
  {
    var es := [StreamStart, DocumentStart, MappingStart, Scalar(name), DocumentEnd, StreamEnd];
    assert es[..3] == [StreamStart, DocumentStart, MappingStart];
    assert es[4..] == [DocumentEnd, StreamEnd];
  }
}
