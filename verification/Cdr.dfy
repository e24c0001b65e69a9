/**
 Charging-data files (core/fairwave-control/internal/collector/cdr.go): the container of section 6.1
 of 3GPP TS 32.297 and, in each record, the subscriber and the volumes of every used-unit container.
 Volumes are unsigned 64-bit.
 */
module Cdr {
  import opened Bytes
  import opened Wrappers
  import opened Ber

  const WORD: nat := 0x1_0000_0000_0000_0000

  datatype Usage = Usage(imsi: Octets, apn: Octets, up: uint64, dn: uint64)

  datatype Failure =
    | BadElement(error: Ber.Error) | MissingWrapper | NoSubscriber
    | TooShort | TruncatedExtension | BadHeaderLength | ImplausibleCount | TruncatedRecord | BodyOutOfRange

  // ---- one record ----

  function FindTag(ts: seq<Tlv>, tag: int): Option<Tlv> {
    if ts == [] then None
    else if ts[0].cls == CONTEXT && ts[0].tag == tag then Some(ts[0])
    else FindTag(ts[1..], tag)
  }

  function FindChild(t: Tlv, tag: int): Option<Tlv> {
    match Children(t.content)
    case Err(_) => None
    case Ok(ts) => FindTag(ts, tag)
  }

  function UintOf(content: Octets): uint64 {
    FromBE(content) % WORD
  }

  function UintValue(t: Option<Tlv>): uint64 {
    if t.None? then 0 else UintOf(t.value.content)
  }

  datatype Volumes = Volumes(up: uint64, dn: uint64)

  function Plus(a: Volumes, b: Volumes): Volumes {
    Volumes((a.up + b.up) % WORD, (a.dn + b.dn) % WORD)
  }

  const NO_VOLUME: Volumes := Volumes(0, 0)

  /** A used-unit container; one that cannot be read counts nothing. */
  function ContainerVolumes(uc: Tlv): Volumes {
    match Children(uc.content)
    case Err(_) => NO_VOLUME
    case Ok(ts) => Volumes(UintValue(FindTag(ts, 5)), UintValue(FindTag(ts, 6)))
  }

  function ContainersFrom(v: Volumes, ucs: seq<Tlv>): Volumes
    decreases |ucs|
  {
    if ucs == [] then v else ContainersFrom(Plus(v, ContainerVolumes(ucs[0])), ucs[1..])
  }

  /** The used-unit containers of one multiple-unit-usage element. */
  function ContainersOf(muu: Tlv): seq<Tlv> {
    match FindChild(muu, 1)
    case None => []
    case Some(containers) => match Children(containers.content) case Err(_) => [] case Ok(ucs) => ucs
  }

  function UnitsFrom(v: Volumes, muus: seq<Tlv>): Volumes
    decreases |muus|
  {
    if muus == [] then v else UnitsFrom(ContainersFrom(v, ContainersOf(muus[0])), muus[1..])
  }

  function UnitsOf(fields: seq<Tlv>): seq<Tlv> {
    match FindTag(fields, 5)
    case None => []
    case Some(list) => match Children(list.content) case Err(_) => [] case Ok(muus) => muus
  }

  function Nested(fields: seq<Tlv>, outer: int, inner: int): Octets {
    match FindTag(fields, outer)
    case None => []
    case Some(t) => match FindChild(t, inner) case None => [] case Some(d) => d.content
  }

  function RecordFrom(body: Octets): Result<Usage, Failure> {
    match Children(body)
    case Err(e) => Err(BadElement(e))
    case Ok(top) =>
      var wrapper := FindTag(top, 1);
      if wrapper.None? && |top| != 1 then Err(MissingWrapper)
      else
        var rec := if wrapper.Some? then wrapper.value else top[0];
        match Children(rec.content)
        case Err(e) => Err(BadElement(e))
        case Ok(fields) =>
          var imsi := Nested(fields, 2, 1);
          if imsi == [] then Err(NoSubscriber)
          else
            var v := UnitsFrom(NO_VOLUME, UnitsOf(fields));
            Ok(Usage(imsi, Nested(fields, 13, 13), v.up, v.dn))
  }

  method FindTagLoop(ts: seq<Tlv>, tag: int) returns (r: Option<Tlv>)
    ensures r == FindTag(ts, tag)
  {
    for i := 0 to |ts|
      invariant FindTag(ts, tag) == FindTag(ts[i..], tag)
    {
      if ts[i].cls == CONTEXT && ts[i].tag == tag {
        return Some(ts[i]);
      }
    }
    r := None;
  }

  method FindChildIn(t: Tlv, tag: int) returns (r: Option<Tlv>)
    ensures r == FindChild(t, tag)
  {
    hide Children;
    var children := ParseChildren(t.content);
    if children.Err? {
      return None;
    }
    r := FindTagLoop(children.value, tag);
  }

  lemma ShiftIn(v: nat, b: byte)
    ensures (v % WORD * 256 + b) % WORD == (v * 256 + b) % WORD
  {
    var q := v / WORD;
    assert v == q * WORD + v % WORD;
    assert v * 256 + b == (q * 256) * WORD + (v % WORD * 256 + b);
    AddMultiple(v % WORD * 256 + b, q * 256);
  }

  lemma {:induction false} AddMultiple(x: nat, k: nat)
    ensures (k * WORD + x) % WORD == x % WORD
  {
    if k > 0 {
      AddMultiple(x, k - 1);
      assert k * WORD + x == (k - 1) * WORD + x + WORD;
    }
  }

  method UintValueLoop(t: Option<Tlv>) returns (v: uint64)
    ensures v == UintValue(t)
  {
    if t.None? {
      return 0;
    }
    var content := t.value.content;
    v := 0;
    for i := 0 to |content|
      invariant v == UintOf(content[..i])
    {
      assert content[..i + 1][..i] == content[..i];
      ShiftIn(FromBE(content[..i]), content[i]);
      v := (v * 256 + content[i]) % WORD;
    }
    assert content[..|content|] == content;
  }

  /** The innermost loop: every used-unit container of one element. */
  method AddContainers(v: Volumes, muu: Tlv) returns (r: Volumes)
    ensures r == ContainersFrom(v, ContainersOf(muu))
  {
    hide Children, UintValue;
    r := v;
    var mFields := ParseChildren(muu.content);
    if mFields.Err? {
      return;
    }
    var containers := FindTagLoop(mFields.value, 1);
    if containers.None? {
      return;
    }
    var cFields := ParseChildren(containers.value.content);
    if cFields.Err? {
      return;
    }
    var ucs := cFields.value;
    for i := 0 to |ucs|
      invariant ContainersFrom(v, ucs) == ContainersFrom(r, ucs[i..])
    {
      var uc := ucs[i];
      assert ucs[i..][1..] == ucs[i + 1..] && ucs[i..][0] == uc;
      var ucFields := ParseChildren(uc.content);
      if ucFields.Err? {
        assert Plus(r, ContainerVolumes(uc)) == r;
        continue;
      }
      var upTag := FindTagLoop(ucFields.value, 5);
      var up := UintValueLoop(upTag);
      var dnTag := FindTagLoop(ucFields.value, 6);
      var dn := UintValueLoop(dnTag);
      r := Volumes((r.up + up) % WORD, (r.dn + dn) % WORD);
    }
  }

  method AddUnits(muus: seq<Tlv>) returns (r: Volumes)
    ensures r == UnitsFrom(NO_VOLUME, muus)
  {
    hide ContainersFrom, ContainersOf;
    r := NO_VOLUME;
    for i := 0 to |muus|
      invariant UnitsFrom(NO_VOLUME, muus) == UnitsFrom(r, muus[i..])
    {
      assert muus[i..][1..] == muus[i + 1..] && muus[i..][0] == muus[i];
      r := AddContainers(r, muus[i]);
    }
  }

  method NestedOctets(fields: seq<Tlv>, outer: int, inner: int) returns (r: Octets)
    ensures r == Nested(fields, outer, inner)
  {
    hide FindTag, FindChild;
    var t := FindTagLoop(fields, outer);
    if t.None? {
      return [];
    }
    var d := FindChildIn(t.value, inner);
    r := if d.None? then [] else d.value.content;
  }

  method ParseChargingRecord(body: Octets) returns (r: Result<Usage, Failure>)
    ensures r == RecordFrom(body)
  {
    hide Children, FindTag, Nested, UnitsFrom;
    var top := ParseChildren(body);
    if top.Err? {
      return Err(BadElement(top.error));
    }
    var wrapper := FindTagLoop(top.value, 1);
    if wrapper.None? && |top.value| != 1 {
      return Err(MissingWrapper);
    }
    var rec := if wrapper.Some? then wrapper.value else top.value[0];
    var fields := ParseChildren(rec.content);
    if fields.Err? {
      return Err(BadElement(fields.error));
    }
    var imsi := NestedOctets(fields.value, 2, 1);
    if imsi == [] {
      return Err(NoSubscriber);
    }
    var apn := NestedOctets(fields.value, 13, 13);
    var muus: seq<Tlv> := [];
    var list := FindTagLoop(fields.value, 5);
    if list.Some? {
      var units := ParseChildren(list.value.content);
      if units.Ok? {
        muus := units.value;
      }
    }
    var v := AddUnits(muus);
    r := Ok(Usage(imsi, apn, v.up, v.dn));
  }

  // ---- the file ----

  /** A record as it was read: where its body lies, and the usage in it. */
  datatype Parsed = Parsed(start: nat, end: nat, usage: Usage)

  const RELEASE_EXTENDED: nat := 7

  /** The first octet after the file header, with its routing filter and private extension. */
  function HeaderEnd(data: Octets): Result<nat, Failure> {
    if |data| < 52 then Err(TooShort)
    else
      var off := 50 + FromBE(data[48..50]);
      if off + 2 > |data| then Err(TruncatedExtension)
      else
        var end := off + 2 + FromBE(data[off..off + 2]);
        if end > |data| then Err(BadHeaderLength)
        else
          var e1 := if end < |data| && data[8] / 32 == RELEASE_EXTENDED then end + 1 else end;
          var e2 := if e1 < |data| && data[9] / 32 == RELEASE_EXTENDED then e1 + 1 else e1;
          Ok(e2)
  }

  function RecordCount(data: Octets): nat
    requires |data| >= 52
  {
    FromBE(data[18..22])
  }

  /** Where the body of the record at `off` starts and ends. */
  function Span(data: Octets, off: nat): Result<(nat, nat), Failure>
  {
    if off + 4 > |data| then Err(TruncatedRecord)
    else
      var start := off + 4 + (if data[off + 2] / 32 == RELEASE_EXTENDED then 1 else 0);
      var end := start + FromBE(data[off..off + 2]);
      if end > |data| then Err(BodyOutOfRange) else Ok((start, end))
  }

  function RecordsFrom(data: Octets, off: nat, num: nat): Result<seq<Parsed>, Failure>
    decreases num
  {
    if num == 0 then Ok([])
    else
      match Span(data, off)
      case Err(e) => Err(e)
      case Ok((start, end)) =>
        match RecordFrom(data[start..end])
        case Err(e) => Err(e)
        case Ok(usage) =>
          match RecordsFrom(data, end, num - 1)
          case Err(e) => Err(e)
          case Ok(more) => Ok([Parsed(start, end, usage)] + more)
  }

  function FileFrom(data: Octets): Result<seq<Parsed>, Failure> {
    match HeaderEnd(data)
    case Err(e) => Err(e)
    case Ok(off) =>
      var num := RecordCount(data);
      if num == 0 || num > 0x1_0000 then Err(ImplausibleCount)
      else RecordsFrom(data, off, num)
  }

  function Usages(ps: seq<Parsed>): (us: seq<Usage>)
    ensures |us| == |ps|
  {
    seq(|ps|, i requires 0 <= i < |ps| => ps[i].usage)
  }

  function UsagesOf(r: Result<seq<Parsed>, Failure>): Result<seq<Usage>, Failure> {
    match r case Err(e) => Err(e) case Ok(ps) => Ok(Usages(ps))
  }

  method ParseHeader(data: Octets) returns (r: Result<nat, Failure>)
    ensures r == HeaderEnd(data)
  {
    if |data| < 52 {
      return Err(TooShort);
    }
    var off := 50 + FromBE(data[48..50]);
    if off + 2 > |data| {
      return Err(TruncatedExtension);
    }
    off := off + 2 + FromBE(data[off..off + 2]);
    if off < 52 || off > |data| {
      return Err(BadHeaderLength);
    }
    if off < |data| && data[8] / 32 == RELEASE_EXTENDED {
      off := off + 1;
    }
    if off < |data| && data[9] / 32 == RELEASE_EXTENDED {
      off := off + 1;
    }
    r := Ok(off);
  }

  method ParseCDRFile(data: Octets) returns (r: Result<seq<Usage>, Failure>)
    ensures r == UsagesOf(FileFrom(data))
  {
    hide RecordFrom, Span, HeaderEnd;
    var header := ParseHeader(data);
    if header.Err? {
      return Err(header.error);
    }
    assert |data| >= 52 by { HeaderInRange(data); }
    var num := RecordCount(data);
    if num == 0 || num > 0x1_0000 {
      return Err(ImplausibleCount);
    }
    r := ParseRecords(data, header.value, num);
  }

  lemma HeaderInRange(data: Octets)
    ensures HeaderEnd(data).Ok? ==> |data| >= 52 && 52 <= HeaderEnd(data).value <= |data|
  {
  }

  method ParseRecords(data: Octets, start: nat, num: nat) returns (r: Result<seq<Usage>, Failure>)
    ensures r == UsagesOf(RecordsFrom(data, start, num))
  {
    hide RecordFrom;
    var off := start;
    ghost var done: seq<Parsed> := [];
    var out: seq<Usage> := [];
    JoinNone(RecordsFrom(data, start, num));
    for i := 0 to num
      invariant RecordsFrom(data, start, num) == Joined(done, RecordsFrom(data, off, num - i))
      invariant out == Usages(done)
    {
      var span := Span(data, off);
      if span.Err? {
        return Err(span.error);
      }
      var (recOff, end) := span.value;
      var u := ParseChargingRecord(data[recOff..end]);
      if u.Err? {
        return Err(u.error);
      }
      JoinOne(done, Parsed(recOff, end, u.value), RecordsFrom(data, end, num - i - 1));
      done := done + [Parsed(recOff, end, u.value)];
      out := out + [u.value];
      off := end;
    }
    assert done + [] == done;
    r := Ok(out);
  }

  ghost function Joined(ps: seq<Parsed>, r: Result<seq<Parsed>, Failure>): Result<seq<Parsed>, Failure> {
    match r case Err(e) => Err(e) case Ok(more) => Ok(ps + more)
  }

  lemma JoinNone(r: Result<seq<Parsed>, Failure>)
    ensures Joined([], r) == r
  {
    if r.Ok? { assert [] + r.value == r.value; }
  }

  lemma JoinOne(ps: seq<Parsed>, p: Parsed, r: Result<seq<Parsed>, Failure>)
    ensures Joined(ps, Joined([p], r)) == Joined(ps + [p], r)
  {
    if r.Ok? { assert ps + ([p] + r.value) == ps + [p] + r.value; }
  }

  // ---- whatever the bytes, bodies are read inside the file, one after the other ----

  ghost predicate Consecutive(data: Octets, from: nat, ps: seq<Parsed>) {
    forall i :: 0 <= i < |ps| ==>
      && 4 <= ps[i].start - (if i == 0 then from else ps[i - 1].end) <= 5
      && ps[i].start <= ps[i].end <= |data|
      && RecordFrom(data[ps[i].start..ps[i].end]) == Ok(ps[i].usage)
  }

  lemma {:induction false} RecordsAreConsecutive(data: Octets, off: nat, num: nat)
    ensures RecordsFrom(data, off, num).Ok? ==>
      |RecordsFrom(data, off, num).value| == num && Consecutive(data, off, RecordsFrom(data, off, num).value)
    decreases num
  {
    hide RecordFrom;
    if num > 0 && RecordsFrom(data, off, num).Ok? {
      var (start, end) := Span(data, off).value;
      RecordsAreConsecutive(data, end, num - 1);
      var more := RecordsFrom(data, end, num - 1).value;
      var ps := RecordsFrom(data, off, num).value;
      forall i | 0 <= i < |ps|
        ensures 4 <= ps[i].start - (if i == 0 then off else ps[i - 1].end) <= 5
        ensures ps[i].start <= ps[i].end <= |data|
        ensures RecordFrom(data[ps[i].start..ps[i].end]) == Ok(ps[i].usage)
      {
        if i > 0 {
          assert ps[i] == more[i - 1];
        }
      }
    }
  }

  /**
   On arbitrary bytes, an accepted file has between 1 and 65536 records; their bodies lie after the
   52-octet header and inside the file, each one four or five octets after the one before, and each
   usage reported is that of the body in its place.
   */
  lemma FileBodiesAreDisjoint(data: Octets)
    ensures FileFrom(data).Ok? ==>
      var ps := FileFrom(data).value;
      && 1 <= |ps| <= 0x1_0000 && |data| >= 52
      && (exists from :: 52 <= from <= |data| && Consecutive(data, from, ps))
  {
    HeaderInRange(data);
    if FileFrom(data).Ok? {
      RecordsAreConsecutive(data, HeaderEnd(data).value, RecordCount(data));
      assert Consecutive(data, HeaderEnd(data).value, FileFrom(data).value);
    }
  }
}
