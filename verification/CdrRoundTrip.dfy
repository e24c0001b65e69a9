/**
 Charging files that are built, and what reading them gives back.  A record carries a subscriber,
 perhaps an access point, the volumes of its used-unit containers and any fields the reader ignores.
 */
module CdrRoundTrip {
  import opened Bytes
  import opened Wrappers
  import opened Ber
  import opened Cdr

  // ---- elements in their shortest form ----

  function LengthOctets(n: nat): nat {
    if n < 128 then 0 else if n < 0x100 then 1 else if n < 0x1_0000 then 2 else if n < 0x100_0000 then 3 else 4
  }

  predicate LowTag(t: Tlv) { t.cls < 4 && 0 <= t.tag < 31 }

  ghost predicate LowTags(ts: seq<Tlv>) { forall i :: 0 <= i < |ts| ==> LowTag(ts[i]) }

  function Written(t: Tlv): (b: Octets)
    requires LowTag(t)
    ensures |t.content| <= |b|
  {
    [Identifier(t, t.tag)] + LengthPart(|t.content|, LengthOctets(|t.content|)) + t.content
  }

  function WrittenAll(ts: seq<Tlv>): Octets
    requires LowTags(ts)
  {
    if ts == [] then [] else Written(ts[0]) + WrittenAll(ts[1..])
  }

  /** No length field counts further than this. */
  const LENGTH_LIMIT: nat := 0x1_0000_0000

  lemma WrittenReadsBack(t: Tlv, rest: Octets)
    requires LowTag(t) && |t.content| < LENGTH_LIMIT
    ensures Element(Written(t) + rest) == Ok((t, rest))
  {
    hide Element, LengthPart;
    Widths();
    ElementOfEncoded(t, Form(0, LengthOctets(|t.content|)), rest);
  }

  /** Elements whose encodings together are short enough are read back exactly. */
  lemma {:induction false} AllReadBack(ts: seq<Tlv>)
    requires LowTags(ts) && |WrittenAll(ts)| < LENGTH_LIMIT
    ensures Children(WrittenAll(ts)) == Ok(ts)
  {
    hide Element, Written;
    if ts != [] {
      ElementSplits(WrittenAll(ts));
      WrittenReadsBack(ts[0], WrittenAll(ts[1..]));
      AllReadBack(ts[1..]);
      assert ts == [ts[0]] + ts[1..];
    }
  }

  lemma {:induction false} PartIsShorter(ts: seq<Tlv>, i: nat)
    requires LowTags(ts) && i < |ts|
    ensures |ts[i].content| <= |WrittenAll(ts)|
  {
    if i > 0 { PartIsShorter(ts[1..], i - 1); }
  }

  lemma {:induction false} FindSkips(skipped: seq<Tlv>, rest: seq<Tlv>, tag: int)
    requires forall i :: 0 <= i < |skipped| ==> !(skipped[i].cls == CONTEXT && skipped[i].tag == tag)
    ensures FindTag(skipped + rest, tag) == FindTag(rest, tag)
  {
    if skipped == [] {
      assert skipped + rest == rest;
    } else {
      assert (skipped + rest)[1..] == skipped[1..] + rest;
      FindSkips(skipped[1..], rest, tag);
    }
  }

  // ---- records ----

  datatype Used = Used(up: uint64, dn: uint64)

  datatype Record = Record(imsi: Octets, apn: Option<Octets>, units: seq<seq<Used>>, others: seq<Tlv>)
  {
    /** There is a subscriber, and the other fields are not in the place of those that are read. */
    ghost predicate Valid() {
      imsi != [] && LowTags(others) &&
      forall i :: 0 <= i < |others| ==> !(others[i].cls == CONTEXT && others[i].tag in {2, 5, 13})
    }
  }

  const UNIVERSAL: nat := 0
  const SEQUENCE: nat := 16

  function Leaf(tag: nat, content: Octets): (t: Tlv) { Tlv(CONTEXT, false, tag, content) }

  function Node(cls: nat, tag: nat, parts: seq<Tlv>): Tlv
    requires LowTags(parts)
  {
    Tlv(cls, true, tag, WrittenAll(parts))
  }

  function VolumeFields(u: Used): (ts: seq<Tlv>)
    ensures LowTags(ts)
  {
    [Leaf(5, ToBE(u.up, 8)), Leaf(6, ToBE(u.dn, 8))]
  }

  function Containers(us: seq<Used>): (ts: seq<Tlv>)
    ensures |ts| == |us| && LowTags(ts)
  {
    seq(|us|, i requires 0 <= i < |us| => Node(UNIVERSAL, SEQUENCE, VolumeFields(us[i])))
  }

  function UnitFields(us: seq<Used>): (ts: seq<Tlv>)
    ensures LowTags(ts)
  {
    [Node(CONTEXT, 1, Containers(us))]
  }

  function Units(units: seq<seq<Used>>): (ts: seq<Tlv>)
    ensures |ts| == |units| && LowTags(ts)
  {
    seq(|units|, i requires 0 <= i < |units| => Node(UNIVERSAL, SEQUENCE, UnitFields(units[i])))
  }

  function SubscriberField(imsi: Octets): Tlv { Node(CONTEXT, 2, [Leaf(1, imsi)]) }

  function ApnFields(apn: Option<Octets>): (ts: seq<Tlv>)
    ensures LowTags(ts)
  {
    match apn case None => [] case Some(name) => [Node(CONTEXT, 13, [Leaf(13, name)])]
  }

  function UsageField(units: seq<seq<Used>>): Tlv { Node(CONTEXT, 5, Units(units)) }

  function Fields(r: Record): (ts: seq<Tlv>)
    requires LowTags(r.others)
    ensures LowTags(ts)
  {
    r.others + ([SubscriberField(r.imsi)] + (ApnFields(r.apn) + [UsageField(r.units)]))
  }

  /** The body of a record. */
  function Body(r: Record): Octets
    requires LowTags(r.others)
  {
    WrittenAll([Node(CONTEXT, 1, Fields(r))])
  }

  function TotalUp(us: seq<Used>): nat { if us == [] then 0 else us[0].up + TotalUp(us[1..]) }

  function TotalDn(us: seq<Used>): nat { if us == [] then 0 else us[0].dn + TotalDn(us[1..]) }

  function Flat(units: seq<seq<Used>>): seq<Used> { if units == [] then [] else units[0] + Flat(units[1..]) }

  function Reported(r: Record): Usage {
    Usage(r.imsi, if r.apn.None? then [] else r.apn.value, TotalUp(Flat(r.units)) % WORD, TotalDn(Flat(r.units)) % WORD)
  }

  // ---- volumes ----

  lemma WordIs(v: uint64)
    ensures UintOf(ToBE(v, 8)) == v
  {
    Widths();
    FromToBE(v, 8);
  }

  lemma VolumesReadBack(u: Used)
    ensures ContainerVolumes(Node(UNIVERSAL, SEQUENCE, VolumeFields(u))) == Volumes(u.up, u.dn)
  {
    hide Children, WrittenAll, UintOf;
    var ts := VolumeFields(u);
    VolumeFieldsAreShort(u);
    AllReadBack(ts);
    assert FindTag(ts, 5) == Some(ts[0]);
    assert FindTag(ts, 6) == FindTag(ts[1..], 6) == Some(ts[1]);
    WordIs(u.up);
    WordIs(u.dn);
  }

  lemma VolumeFieldsAreShort(u: Used)
    ensures |WrittenAll(VolumeFields(u))| < LENGTH_LIMIT
  {
    var ts := VolumeFields(u);
    assert WrittenAll(ts) == Written(ts[0]) + WrittenAll(ts[1..]);
    assert WrittenAll(ts[1..]) == Written(ts[1]) + WrittenAll(ts[1..][1..]);
    assert ts[1..][1..] == [];
  }

  lemma ModAdd(a: nat, b: nat, c: nat)
    ensures ((a + b) % WORD + c) % WORD == (a + (b + c)) % WORD
  {
    var q := (a + b) / WORD;
    assert a + b == q * WORD + (a + b) % WORD;
    AddMultiple((a + b) % WORD + c, q);
  }

  function Added(v: Volumes, us: seq<Used>): Volumes {
    Volumes((v.up + TotalUp(us)) % WORD, (v.dn + TotalDn(us)) % WORD)
  }

  lemma NothingAdded(v: Volumes)
    ensures Added(v, []) == v
  {
  }

  lemma AddedFirst(v: Volumes, us: seq<Used>)
    requires us != []
    ensures Added(Plus(v, Volumes(us[0].up, us[0].dn)), us[1..]) == Added(v, us)
  {
    ModAdd(v.up, us[0].up, TotalUp(us[1..]));
    ModAdd(v.dn, us[0].dn, TotalDn(us[1..]));
  }

  lemma {:induction false} ContainersAdd(v: Volumes, us: seq<Used>)
    ensures ContainersFrom(v, Containers(us)) == Added(v, us)
    decreases |us|
  {
    hide ContainerVolumes, Written, WrittenAll, Added, Plus;
    if us == [] {
      NothingAdded(v);
    } else {
      VolumesReadBack(us[0]);
      assert Containers(us)[1..] == Containers(us[1..]);
      ContainersAdd(Plus(v, Volumes(us[0].up, us[0].dn)), us[1..]);
      AddedFirst(v, us);
    }
  }

  lemma {:induction false} TotalsAppend(a: seq<Used>, b: seq<Used>)
    ensures TotalUp(a + b) == TotalUp(a) + TotalUp(b) && TotalDn(a + b) == TotalDn(a) + TotalDn(b)
  {
    if a == [] {
      assert a + b == b;
    } else {
      TotalsAppend(a[1..], b);
      assert (a + b)[1..] == a[1..] + b;
    }
  }

  lemma ContainersReadBack(us: seq<Used>)
    requires |WrittenAll(UnitFields(us))| < LENGTH_LIMIT
    ensures ContainersOf(Node(UNIVERSAL, SEQUENCE, UnitFields(us))) == Containers(us)
  {
    hide Children, WrittenAll;
    AllReadBack(UnitFields(us));
    PartIsShorter(UnitFields(us), 0);
    AllReadBack(Containers(us));
  }

  lemma {:induction false} UnitsAdd(v: Volumes, units: seq<seq<Used>>)
    requires |WrittenAll(Units(units))| < LENGTH_LIMIT
    ensures UnitsFrom(v, Units(units)) == Added(v, Flat(units))
    decreases |units|
  {
    hide ContainersOf, ContainersFrom, UnitFields, Added, Written;
    if units == [] {
      AddedNothing(v);
    } else {
      assert Units(units)[1..] == Units(units[1..]);
      assert |WrittenAll(Units(units[1..]))| <= |WrittenAll(Units(units))|;
      PartIsShorter(Units(units), 0);
      ContainersReadBack(units[0]);
      ContainersAdd(v, units[0]);
      UnitsAdd(Added(v, units[0]), units[1..]);
      AddedTwice(v, units[0], Flat(units[1..]));
    }
  }

  lemma AddedNothing(v: Volumes)
    ensures Added(v, []) == v
  {
  }

  lemma AddedTwice(v: Volumes, a: seq<Used>, b: seq<Used>)
    ensures Added(Added(v, a), b) == Added(v, a + b)
  {
    TotalsAppend(a, b);
    ModAdd(v.up, TotalUp(a), TotalUp(b));
    ModAdd(v.dn, TotalDn(a), TotalDn(b));
  }

  // ---- fields ----

  lemma FieldsAreFound(r: Record)
    requires r.Valid()
    ensures FindTag(Fields(r), 2) == Some(SubscriberField(r.imsi))
    ensures FindTag(Fields(r), 5) == Some(UsageField(r.units))
    ensures FindTag(Fields(r), 13) == if r.apn.None? then None else Some(ApnFields(r.apn)[0])
  {
    hide WrittenAll;
    var last := [UsageField(r.units)];
    var apnOn := ApnFields(r.apn) + last;
    var subOn := [SubscriberField(r.imsi)] + apnOn;
    assert subOn[1..] == apnOn;
    FindSkips(r.others, subOn, 2);
    FindSkips(r.others, subOn, 5);
    FindSkips(r.others, subOn, 13);
    FindSkips([SubscriberField(r.imsi)], apnOn, 5);
    FindSkips([SubscriberField(r.imsi)], apnOn, 13);
    FindSkips(ApnFields(r.apn), last, 5);
    if r.apn.None? { assert apnOn == last && last[1..] == []; }
  }

  lemma ChildReadBack(t: Tlv, tag: nat, content: Octets)
    requires tag < 31 && t.content == WrittenAll([Leaf(tag, content)]) && |t.content| < LENGTH_LIMIT
    ensures FindChild(t, tag) == Some(Leaf(tag, content))
  {
    hide Children, WrittenAll;
    AllReadBack([Leaf(tag, content)]);
  }

  lemma FieldIsShorter(r: Record, f: Tlv)
    requires r.Valid() && f in Fields(r)
    ensures |f.content| <= |WrittenAll(Fields(r))|
  {
    var i :| 0 <= i < |Fields(r)| && Fields(r)[i] == f;
    PartIsShorter(Fields(r), i);
  }

  lemma {:induction false} FindTagIn(ts: seq<Tlv>, tag: int)
    ensures FindTag(ts, tag).Some? ==> FindTag(ts, tag).value in ts
  {
    if ts != [] { FindTagIn(ts[1..], tag); }
  }

  lemma NamesReadBack(r: Record)
    requires r.Valid() && |WrittenAll(Fields(r))| < LENGTH_LIMIT
    ensures Nested(Fields(r), 2, 1) == r.imsi
    ensures Nested(Fields(r), 13, 13) == if r.apn.None? then [] else r.apn.value
  {
    hide FindTag, FindChild, Fields, WrittenAll;
    FieldsAreFound(r);
    FindTagIn(Fields(r), 2);
    FindTagIn(Fields(r), 13);
    FieldIsShorter(r, SubscriberField(r.imsi));
    ChildReadBack(SubscriberField(r.imsi), 1, r.imsi);
    if r.apn.Some? {
      FieldIsShorter(r, ApnFields(r.apn)[0]);
      ChildReadBack(ApnFields(r.apn)[0], 13, r.apn.value);
    }
  }

  lemma UnitsReadBack(r: Record)
    requires r.Valid() && |WrittenAll(Fields(r))| < LENGTH_LIMIT
    ensures UnitsOf(Fields(r)) == Units(r.units)
    ensures |WrittenAll(Units(r.units))| < LENGTH_LIMIT
  {
    hide FindTag, Fields, WrittenAll, Units, Children;
    FieldsAreFound(r);
    FindTagIn(Fields(r), 5);
    FieldIsShorter(r, UsageField(r.units));
    AllReadBack(Units(r.units));
  }

  /**
   A record that is built is read back: its subscriber, its access point and, modulo 2^64, the sums
   over every used-unit container.
   */
  lemma RecordReadsBack(r: Record)
    requires r.Valid() && |Body(r)| < LENGTH_LIMIT
    ensures RecordFrom(Body(r)) == Ok(Reported(r))
  {
    hide Children, WrittenAll, Fields, UnitsFrom, UnitsOf, Nested;
    var top := [Node(CONTEXT, 1, Fields(r))];
    AllReadBack(top);
    PartIsShorter(top, 0);
    AllReadBack(Fields(r));
    NamesReadBack(r);
    UnitsReadBack(r);
    UnitsAdd(NO_VOLUME, r.units);
  }

  // ---- files ----

  /** Everything about a file but its records; `head` is its first 48 octets, count included. */
  datatype Header = Header(head: Octets, routing: Octets, private: Octets, extension1: byte, extension2: byte)
  {
    predicate Valid(count: nat) {
      && |head| == 48 && count < 0x1_0000_0000 && head[18..22] == ToBE(count, 4)
      && |routing| < 0x1_0000 && |private| < 0x1_0000
    }
  }

  function Extension(release: byte, extension: byte): Octets {
    if release / 32 == RELEASE_EXTENDED then [extension] else []
  }

  function HeaderOctets(h: Header): Octets
    requires |h.head| == 48 && |h.routing| < 0x1_0000 && |h.private| < 0x1_0000
  {
    h.head + (ToBE(|h.routing|, 2) + (h.routing + (ToBE(|h.private|, 2) + (h.private
      + (Extension(h.head[8], h.extension1) + Extension(h.head[9], h.extension2))))))
  }

  /** A record in a file, with the octets around its body that do not matter. */
  datatype Entry = Entry(record: Record, release: byte, flags: byte, extension: byte)
  {
    ghost predicate Valid() { record.Valid() && |Body(record)| < 0x1_0000 }
  }

  function EntryOctets(e: Entry): Octets
    requires LowTags(e.record.others)
  {
    ToBE(|Body(e.record)|, 2) + [e.release, e.flags] + Extension(e.release, e.extension) + Body(e.record)
  }

  function EntriesOctets(es: seq<Entry>): Octets
    requires forall e <- es :: LowTags(e.record.others)
  {
    if es == [] then [] else EntryOctets(es[0]) + EntriesOctets(es[1..])
  }

  function Reports(es: seq<Entry>): (us: seq<Usage>)
    ensures |us| == |es|
  {
    seq(|es|, i requires 0 <= i < |es| => Reported(es[i].record))
  }

  lemma SpanOfEntry(before: Octets, e: Entry, after: Octets)
    requires e.Valid()
    ensures var data := before + (EntryOctets(e) + after); var body := Body(e.record);
      Span(data, |before|).Ok? &&
      var (start, end) := Span(data, |before|).value;
      end == |before + EntryOctets(e)| && start == end - |body| && data[start..end] == body
  {
    hide Body;
    var data := before + (EntryOctets(e) + after);
    var body, off := Body(e.record), |before|;
    var front := ToBE(|body|, 2) + [e.release, e.flags];
    var ext := Extension(e.release, e.extension);
    assert EntryOctets(e) == front + ext + body;
    assert data[off..off + 2] == ToBE(|body|, 2);
    Widths();
    FromToBE(|body|, 2);
    assert data[off + 2] == e.release;
    var start := off + |front| + |ext|;
    assert data[start..start + |body|] == body;
  }

  lemma EntryIsNotEmpty(e: Entry)
    requires LowTags(e.record.others)
    ensures EntryOctets(e) != []
  {
  }

  lemma {:induction false} EntriesReadBack(before: Octets, es: seq<Entry>, after: Octets)
    requires forall e <- es :: LowTags(e.record.others) && e.Valid()
    ensures UsagesOf(RecordsFrom(before + (EntriesOctets(es) + after), |before|, |es|)) == Ok(Reports(es))
    decreases |es|
  {
    hide RecordFrom, Span, EntryOctets, Body, Reported;
    var data := before + (EntriesOctets(es) + after);
    if es != [] {
      var more := EntriesOctets(es[1..]) + after;
      assert EntriesOctets(es) + after == EntryOctets(es[0]) + more;
      SpanOfEntry(before, es[0], more);
      RecordReadsBack(es[0].record);
      var next := before + EntryOctets(es[0]);
      assert data == next + more;
      EntriesReadBack(next, es[1..], after);
      assert Reports(es) == [Reported(es[0].record)] + Reports(es[1..]);
      var tail := RecordsFrom(data, |next|, |es| - 1).value;
      assert Usages([RecordsFrom(data, |before|, |es|).value[0]] + tail) == [Reported(es[0].record)] + Usages(tail);
    }
  }

  lemma HeaderReadsBack(h: Header, count: nat, rest: Octets)
    requires h.Valid(count) && rest != []
    ensures var data := HeaderOctets(h) + rest;
      && HeaderEnd(data) == Ok(|HeaderOctets(h)|) && |data| >= 52 && RecordCount(data) == count
  {
    var data := HeaderOctets(h) + rest;
    Widths();
    FromToBE(|h.routing|, 2);
    FromToBE(|h.private|, 2);
    FromToBE(count, 4);
    assert data[18..22] == h.head[18..22];
    assert data[48..50] == ToBE(|h.routing|, 2);
    var off := 50 + |h.routing|;
    assert data[off..off + 2] == ToBE(|h.private|, 2);
    assert data[8] == h.head[8] && data[9] == h.head[9];
    assert |HeaderOctets(h)| == off + 2 + |h.private| + |Extension(h.head[8], h.extension1)|
        + |Extension(h.head[9], h.extension2)|;
  }

  /**
   Round trip.  A file with any header and 1 to 65536 records, each body under 65536 octets, is read
   back as one usage per record, in order; octets after the last record are not looked at.
   */
  lemma FileReadsBack(h: Header, es: seq<Entry>, after: Octets)
    requires 1 <= |es| <= 0x1_0000 && h.Valid(|es|)
    requires forall e <- es :: LowTags(e.record.others) && e.Valid()
    ensures UsagesOf(FileFrom(HeaderOctets(h) + (EntriesOctets(es) + after))) == Ok(Reports(es))
  {
    hide HeaderEnd, RecordsFrom, HeaderOctets, EntryOctets, RecordCount;
    EntryIsNotEmpty(es[0]);
    assert EntriesOctets(es) != [];
    HeaderReadsBack(h, |es|, EntriesOctets(es) + after);
    EntriesReadBack(HeaderOctets(h), es, after);
  }
}
