/** Reading file metadata back from YAML events (src/famfs_yaml.c). */
module YamlParser {
  import opened Common
  import opened Meta
  import opened Numbers
  import opened Yaml

  datatype Parsed<T> = Ok(value: T, rest: seq<Event>) | Err(rc: int)

  /** GET_YAML_EVENT_OR_GOTO */
  predicate Starts(es: seq<Event>, e: Event) {
    es != [] && es[0] == e
  }

  /** An extent list being filled: the array, ext_index, got_ofs and got_len. */
  datatype Filling = Filling(se: seq<Extent>, index: nat, gotOfs: bool, gotLen: bool)

  /** The array entry, in memory that was zeroed. */
  function Entry(se: seq<Extent>, i: nat): Extent {
    if i < |se| then se[i] else Extent(0, 0, 0)
  }

  function Store(se: seq<Extent>, i: nat, e: Extent): (r: seq<Extent>)
    ensures i < |r| && r[i] == e
  {
    if i < |se| then se[i := e] else se + seq(i - |se|, _ => Extent(0, 0, 0)) + [e]
  }

  function Fill(f: Filling, key: string, v: nat): Filling {
    var e := Entry(f.se, f.index);
    if key == "offset" then f.(se := Store(f.se, f.index, e.(offset := v)), gotOfs := true)
    else if key == "length" then f.(se := Store(f.se, f.index, e.(len := v)), gotLen := true)
    else f.(se := Store(f.se, f.index, e.(devindex := v)))
  }

  predicate ExtentKey(key: string) {
    key == "offset" || key == "length" || key == "devindex"
  }

  /** One round of a parsing loop: go on, end of the list, or an error. */
  datatype Round<T> = More(value: T, rest: seq<Event>) | Done(value: T, rest: seq<Event>) | Stop(rc: int)

  /** One round of the loop of famfs_parse_file_simple_ext_list. */
  function SimpleRound(es: seq<Event>, f: Filling, max: nat): (r: Round<Filling>)
    ensures !r.Stop? ==> |r.rest| < |es|
  {
    if es == [] then Stop(-1) else
    match es[0]
    case Scalar(key) =>
      if !ExtentKey(key) then More(f, es[1..])
      else if |es| < 2 || !es[1].Scalar? then Stop(-1)
      else More(Fill(f, key, Strtoull(es[1].value)), es[2..])
    case MappingStart => if f.index >= max then Stop(-EOVERFLOW) else More(f, es[1..])
    case MappingEnd =>
      if !f.gotLen || !f.gotOfs then Stop(-EINVAL)
      else More(f.(index := f.index + 1, gotOfs := false, gotLen := false), es[1..])
    case SequenceEnd => Done(f, es[1..])
    case _ => More(f, es[1..])
  }

  function SimpleLoop(es: seq<Event>, f: Filling, max: nat): (r: Parsed<Filling>)
    ensures r.Ok? ==> |r.rest| < |es|
    decreases |es|
  {
    match SimpleRound(es, f, max)
    case More(g, rest) => SimpleLoop(rest, g, max)
    case Done(g, rest) => if Starts(rest, MappingEnd) then Ok(g, rest[1..]) else Err(-1)
    case Stop(rc) => Err(rc)
  }

  /** famfs_parse_file_simple_ext_list */
  function ParseSimple(es: seq<Event>, se: seq<Extent>, max: nat): (r: Parsed<Filling>)
    ensures r.Ok? ==> |r.rest| < |es|
  {
    if Starts(es, SequenceStart) && Starts(es[1..], MappingStart)
    then SimpleLoop(es[2..], Filling(se, 0, false, false), max)
    else Err(-1)
  }

  datatype Stripe = Stripe(nstrips: nat, chunkSize: nat, strips: seq<Extent>)

  /** The interleaved extents being filled, and ext_index. */
  datatype Striping = Striping(ie: seq<Stripe>, index: nat)

  function StripeAt(ie: seq<Stripe>, i: nat): Stripe {
    if i < |ie| then ie[i] else Stripe(0, 0, [])
  }

  function StoreStripe(ie: seq<Stripe>, i: nat, e: Stripe): (r: seq<Stripe>)
    ensures i < |r| && r[i] == e
  {
    if i < |ie| then ie[i := e] else ie + seq(i - |ie|, _ => Stripe(0, 0, [])) + [e]
  }

  function FillStripe(f: Striping, key: string, v: nat): Striping {
    var e := StripeAt(f.ie, f.index);
    f.(ie := StoreStripe(f.ie, f.index, if key == "chunk_size" then e.(chunkSize := v) else e.(nstrips := v)))
  }

  /** One round of the loop of famfs_parse_file_striped_ext_list. */
  function StripedRound(es: seq<Event>, f: Striping, maxStrips: nat): (r: Round<Striping>)
    ensures !r.Stop? ==> |r.rest| < |es|
  {
    if es == [] then Stop(-1) else
    match es[0]
    case Scalar(key) =>
      if key == "chunk_size" || key == "nstrips" then
        if |es| < 2 || !es[1].Scalar? then Stop(-1)
        else More(FillStripe(f, key, Strtoull(es[1].value)), es[2..])
      else if key == "simple_ext_list" then StripsRound(es[1..], f, maxStrips)
      else More(f, es[1..])
    case MappingStart => if f.index >= maxStrips then Stop(-EOVERFLOW) else More(f, es[1..])
    case MappingEnd => More(f.(index := f.index + 1), es[1..])
    case SequenceEnd => Done(f, es[1..])
    case _ => More(f, es[1..])
  }

  /** The strips of one interleaved extent, whose number has to be the one announced. */
  function StripsRound(es: seq<Event>, f: Striping, maxStrips: nat): (r: Round<Striping>)
    ensures !r.Stop? ==> |r.rest| < |es|
  {
    var e := StripeAt(f.ie, f.index);
    match ParseSimple(es, e.strips, maxStrips)
    case Err(rc) => Stop(rc)
    case Ok(strips, rest) =>
      if strips.index != e.nstrips then Stop(-EINVAL)
      else More(Striping(StoreStripe(f.ie, f.index, e.(strips := strips.se)), f.index + 1), rest)
  }

  function StripedLoop(es: seq<Event>, f: Striping, maxStrips: nat): (r: Parsed<Striping>)
    ensures r.Ok? ==> |r.rest| < |es|
    decreases |es|
  {
    match StripedRound(es, f, maxStrips)
    case More(g, rest) => StripedLoop(rest, g, maxStrips)
    case Done(g, rest) => if Starts(rest, MappingEnd) then Ok(g, rest[1..]) else Err(-1)
    case Stop(rc) => Err(rc)
  }

  /** famfs_parse_file_striped_ext_list */
  function ParseStriped(es: seq<Event>, ie: seq<Stripe>, maxStrips: nat): (r: Parsed<Striping>)
    ensures r.Ok? ==> |r.rest| < |es|
  {
    if Starts(es, SequenceStart) && Starts(es[1..], MappingStart)
    then StripedLoop(es[2..], Striping(ie, 0), maxStrips)
    else Err(-1)
  }

  /** struct famfs_log_file_meta while it is being filled. */
  datatype FileState = FileState(
    path: string,
    size: nat,
    flags: nat,
    mode: nat,
    uid: nat,
    gid: nat,
    nextents: nat,
    interleaved: bool,
    se: seq<Extent>,
    ie: seq<Stripe>)

  predicate FieldKey(key: string) {
    || key == "path" || key == "size" || key == "flags" || key == "mode"
    || key == "uid" || key == "gid" || key == "nextents"
  }

  /** 32-bit fields keep the low bits; the path is cut to its field. */
  function SetField(fm: FileState, key: string, value: string): FileState {
    var v := Strtoull(value);
    if key == "path" then fm.(path := if |value| < FAMFS_MAX_PATHLEN then value else value[..FAMFS_MAX_PATHLEN - 1])
    else if key == "size" then fm.(size := v)
    else if key == "flags" then fm.(flags := v % U32)
    else if key == "mode" then fm.(mode := v % U32)
    else if key == "uid" then fm.(uid := v % U32)
    else if key == "gid" then fm.(gid := v % U32)
    else fm.(nextents := v % U32)
  }

  /** A list of extents in the file section. */
  function ListRound(es: seq<Event>, fm: FileState, striped: bool, maxExtents: nat, maxStrips: nat)
    : (r: Round<FileState>)
    ensures !r.Stop? ==> |r.rest| < |es|
  {
    if striped then
      match ParseStriped(es, fm.ie, maxStrips) {
        case Err(rc) => Stop(rc)
        case Ok(f, rest) => More(fm.(ie := f.ie, interleaved := true), rest)
      }
    else
      match ParseSimple(es, fm.se, maxExtents) {
        case Err(rc) => Stop(rc)
        case Ok(f, rest) =>
          if f.index != fm.nextents then Stop(-EINVAL) else More(fm.(se := f.se, interleaved := false), rest)
      }
  }

  /** One round of the loop of famfs_parse_file_yaml. */
  function FileRound(es: seq<Event>, fm: FileState, maxExtents: nat, maxStrips: nat): (r: Round<FileState>)
    ensures !r.Stop? ==> |r.rest| < |es|
  {
    if es == [] then Stop(-1) else
    match es[0]
    case Scalar(key) =>
      if FieldKey(key) then
        if |es| < 2 || !es[1].Scalar? then Stop(-1) else More(SetField(fm, key, es[1].value), es[2..])
      else if key == "simple_ext_list" || key == "striped_ext_list" then
        ListRound(es[1..], fm, key == "striped_ext_list", maxExtents, maxStrips)
      else Stop(-EINVAL)
    case MappingEnd => Done(fm, es[1..])
    case _ => More(fm, es[1..])
  }

  function FileLoop(es: seq<Event>, fm: FileState, maxExtents: nat, maxStrips: nat): (r: Parsed<FileState>)
    ensures r.Ok? ==> |r.rest| < |es|
    decreases |es|
  {
    match FileRound(es, fm, maxExtents, maxStrips)
    case More(g, rest) => FileLoop(rest, g, maxExtents, maxStrips)
    case Done(g, rest) => Ok(g, rest)
    case Stop(rc) => Err(rc)
  }

  /** famfs_parse_file_yaml */
  function ParseFile(es: seq<Event>, fm: FileState, maxExtents: nat, maxStrips: nat): (r: Parsed<FileState>)
    ensures r.Ok? ==> |r.rest| < |es|
  {
    if Starts(es, MappingStart) then FileLoop(es[1..], fm, maxExtents, maxStrips) else Err(-1)
  }

  function Closing(r: Parsed<FileState>): Parsed<FileState> {
    if r.Err? then r
    else if Starts(r.rest, DocumentEnd) && Starts(r.rest[1..], StreamEnd) then Ok(r.value, r.rest[2..])
    else Err(-1)
  }

  /** famfs_parse_shadow_yaml */
  function ParseShadow(es: seq<Event>, fm: FileState, maxExtents: nat, maxStrips: nat): Parsed<FileState> {
    if |es| >= 4 && es[..3] == [StreamStart, DocumentStart, MappingStart] && es[3].Scalar?
    then Closing(if es[3].value == "file" then ParseFile(es[4..], fm, maxExtents, maxStrips) else Ok(fm, es[4..]))
    else Err(-1)
  }

  // ---------- the parser as it runs ----------

  class Parser {
    const events: seq<Event>
    var pos: nat

    constructor (events: seq<Event>)
      ensures this.events == events && pos == 0 && Left() == events
    {
      this.events := events;
      pos := 0;
    }

    /** What libyaml has not delivered yet. */
    function Left(): seq<Event>
      reads this
    {
      if pos <= |events| then events[pos..] else []
    }

    /** yaml_parser_parse */
    method Next() returns (ok: bool, e: Event)
      modifies this
      ensures ok <==> old(Left()) != []
      ensures ok ==> e == old(Left())[0] && Left() == old(Left())[1..]
      ensures !ok ==> Left() == old(Left())
    {
      ok := pos < |events|;
      e := StreamEnd;
      if ok {
        e := events[pos];
        pos := pos + 1;
      }
    }

    /** The next event, which has to be `wanted`. */
    method Take(wanted: Event) returns (ok: bool)
      modifies this
      ensures ok <==> Starts(old(Left()), wanted)
      ensures ok ==> Left() == old(Left())[1..]
    {
      var got, e := Next();
      ok := got && e == wanted;
    }

    /** The next event, which has to be a scalar. */
    method TakeScalar() returns (ok: bool, value: string)
      modifies this
      ensures ok <==> old(Left()) != [] && old(Left())[0].Scalar?
      ensures ok ==> old(Left())[0] == Scalar(value) && Left() == old(Left())[1..]
    {
      var got, e := Next();
      ok := got && e.Scalar?;
      value := if ok then e.value else "";
    }

    method SimpleStep(f: Filling, max: nat) returns (r: Round<Filling>)
      modifies this
      ensures r == SimpleRound(old(Left()), f, max) && (!r.Stop? ==> Left() == r.rest)
    {
      hide Strtoull, Fill;
      var got, e := Next();
      if !got {
        return Stop(-1);
      }
      match e
      case Scalar(key) =>
        if !ExtentKey(key) {
          return More(f, Left());
        }
        var isScalar, value := TakeScalar();
        r := if isScalar then More(Fill(f, key, Strtoull(value)), Left()) else Stop(-1);
      case MappingStart => r := if f.index >= max then Stop(-EOVERFLOW) else More(f, Left());
      case MappingEnd =>
        r := if !f.gotLen || !f.gotOfs then Stop(-EINVAL)
             else More(f.(index := f.index + 1, gotOfs := false, gotLen := false), Left());
      case SequenceEnd => r := Done(f, Left());
      case _ => r := More(f, Left());
    }

    /** famfs_parse_file_simple_ext_list */
    method ParseSimpleExtList(se: seq<Extent>, max: nat) returns (r: Parsed<Filling>)
      modifies this
      ensures r == ParseSimple(old(Left()), se, max) && (r.Ok? ==> Left() == r.rest)
    {
      hide SimpleRound;
      var ok := Take(SequenceStart);
      if !ok {
        return Err(-1);
      }
      ok := Take(MappingStart);
      if !ok {
        return Err(-1);
      }
      var f, done := Filling(se, 0, false, false), false;
      while !done
        invariant !done ==> SimpleLoop(Left(), f, max) == ParseSimple(old(Left()), se, max)
        invariant done ==>
          ParseSimple(old(Left()), se, max) == if Starts(Left(), MappingEnd) then Ok(f, Left()[1..]) else Err(-1)
        decreases !done, |Left()|
      {
        var step := SimpleStep(f, max);
        if step.Stop? {
          return Err(step.rc);
        }
        f, done := step.value, step.Done?;
      }
      ok := Take(MappingEnd);
      r := if ok then Ok(f, Left()) else Err(-1);
    }

    method StripedStep(f: Striping, maxStrips: nat) returns (r: Round<Striping>)
      modifies this
      ensures r == StripedRound(old(Left()), f, maxStrips) && (!r.Stop? ==> Left() == r.rest)
    {
      hide Strtoull, FillStripe, StoreStripe, ParseSimple, StripeAt;
      var got, e := Next();
      if !got {
        return Stop(-1);
      }
      match e
      case Scalar(key) =>
        if key == "chunk_size" || key == "nstrips" {
          var isScalar, value := TakeScalar();
          r := if isScalar then More(FillStripe(f, key, Strtoull(value)), Left()) else Stop(-1);
        } else if key == "simple_ext_list" {
          var stripe := StripeAt(f.ie, f.index);
          var strips := ParseSimpleExtList(stripe.strips, maxStrips);
          r := if strips.Err? then Stop(strips.rc)
               else if strips.value.index != stripe.nstrips then Stop(-EINVAL)
               else More(Striping(StoreStripe(f.ie, f.index, stripe.(strips := strips.value.se)), f.index + 1), Left());
        } else {
          r := More(f, Left());
        }
      case MappingStart => r := if f.index >= maxStrips then Stop(-EOVERFLOW) else More(f, Left());
      case MappingEnd => r := More(f.(index := f.index + 1), Left());
      case SequenceEnd => r := Done(f, Left());
      case _ => r := More(f, Left());
    }

    /** famfs_parse_file_striped_ext_list */
    method ParseStripedExtList(ie: seq<Stripe>, maxStrips: nat) returns (r: Parsed<Striping>)
      modifies this
      ensures r == ParseStriped(old(Left()), ie, maxStrips) && (r.Ok? ==> Left() == r.rest)
    {
      hide StripedRound;
      var ok := Take(SequenceStart);
      if !ok {
        return Err(-1);
      }
      ok := Take(MappingStart);
      if !ok {
        return Err(-1);
      }
      var f, done := Striping(ie, 0), false;
      while !done
        invariant !done ==> StripedLoop(Left(), f, maxStrips) == ParseStriped(old(Left()), ie, maxStrips)
        invariant done ==>
          ParseStriped(old(Left()), ie, maxStrips) == if Starts(Left(), MappingEnd) then Ok(f, Left()[1..]) else Err(-1)
        decreases !done, |Left()|
      {
        var step := StripedStep(f, maxStrips);
        if step.Stop? {
          return Err(step.rc);
        }
        f, done := step.value, step.Done?;
      }
      ok := Take(MappingEnd);
      r := if ok then Ok(f, Left()) else Err(-1);
    }

    method FileStep(fm: FileState, maxExtents: nat, maxStrips: nat) returns (r: Round<FileState>)
      modifies this
      ensures r == FileRound(old(Left()), fm, maxExtents, maxStrips) && (!r.Stop? ==> Left() == r.rest)
    {
      hide SetField, ParseSimple, ParseStriped;
      var got, e := Next();
      if !got {
        return Stop(-1);
      }
      match e
      case Scalar(key) =>
        if FieldKey(key) {
          var isScalar, value := TakeScalar();
          r := if isScalar then More(SetField(fm, key, value), Left()) else Stop(-1);
        } else if key == "simple_ext_list" {
          var f := ParseSimpleExtList(fm.se, maxExtents);
          r := if f.Err? then Stop(f.rc) else if f.value.index != fm.nextents then Stop(-EINVAL)
               else More(fm.(se := f.value.se, interleaved := false), Left());
        } else if key == "striped_ext_list" {
          var f := ParseStripedExtList(fm.ie, maxStrips);
          r := if f.Err? then Stop(f.rc) else More(fm.(ie := f.value.ie, interleaved := true), Left());
        } else {
          r := Stop(-EINVAL);
        }
      case MappingEnd => r := Done(fm, Left());
      case _ => r := More(fm, Left());
    }

    /** famfs_parse_file_yaml */
    method ParseFileYaml(fm: FileState, maxExtents: nat, maxStrips: nat) returns (r: Parsed<FileState>)
      modifies this
      ensures r == ParseFile(old(Left()), fm, maxExtents, maxStrips) && (r.Ok? ==> Left() == r.rest)
    {
      hide FileRound;
      var ok := Take(MappingStart);
      if !ok {
        return Err(-1);
      }
      var f, done := fm, false;
      while !done
        invariant !done ==>
          FileLoop(Left(), f, maxExtents, maxStrips) == ParseFile(old(Left()), fm, maxExtents, maxStrips)
        invariant done ==> ParseFile(old(Left()), fm, maxExtents, maxStrips) == Ok(f, Left())
        decreases !done, |Left()|
      {
        var step := FileStep(f, maxExtents, maxStrips);
        if step.Stop? {
          return Err(step.rc);
        }
        f, done := step.value, step.Done?;
      }
      r := Ok(f, Left());
    }

    /** famfs_parse_shadow_yaml */
    method ParseShadowYaml(fm: FileState, maxExtents: nat, maxStrips: nat) returns (r: Parsed<FileState>)
      modifies this
      ensures r == ParseShadow(old(Left()), fm, maxExtents, maxStrips)
    {
      hide ParseFile;
      var ok := Take(StreamStart);
      if !ok {
        return Err(-1);
      }
      ok := Take(DocumentStart);
      if !ok {
        return Err(-1);
      }
      ok := Take(MappingStart);
      if !ok {
        return Err(-1);
      }
      var isScalar, value := TakeScalar();
      if !isScalar {
        return Err(-1);
      }
      r := Ok(fm, Left());
      if value == "file" {
        r := ParseFileYaml(fm, maxExtents, maxStrips);
        if r.Err? {
          return;
        }
      }
      ok := Take(DocumentEnd);
      if !ok {
        return Err(-1);
      }
      ok := Take(StreamEnd);
      r := if ok then Ok(r.value, Left()) else Err(-1);
    }
  }
}
