/**
 One poll of the charging-file source (core/fairwave-control/internal/collector/cdr.go): every readable
 file of the directory is parsed, and the records of one subscriber become one session.

 The directory's contents, the subscriber hash and the clock reading are inputs.
 */
module CdrPoll {
  import opened Bytes
  import opened Wrappers
  import opened Cdr
  import CdrRoundTrip

  /** A directory entry: whether its name and kind qualify, and its contents if it could be read. */
  datatype File = File(isCdr: bool, contents: Option<Octets>)

  type Hash = Octets -> string

  const PHASE: string := "metered"

  datatype Metered = Metered(imsiHash: string, apn: Octets, phase: string, up: uint64, dn: uint64, created: int)

  type Table = map<Octets, Metered>

  /** The configured directory: none, one that cannot be read, or its entries. */
  datatype Directory = Unnamed | Unreadable | Entries(files: seq<File>)

  datatype Problem = DirectoryRequired | NoDirectory

  /** What a file contributes; one that cannot be read or parsed contributes nothing. */
  function UsagesIn(f: File): seq<Usage> {
    if !f.isCdr || f.contents.None? then []
    else match UsagesOf(FileFrom(f.contents.value)) case Ok(us) => us case Err(_) => []
  }

  function AllUsages(files: seq<File>): seq<Usage> {
    if files == [] then [] else AllUsages(files[..|files| - 1]) + UsagesIn(files[|files| - 1])
  }

  function Wrapped(x: nat): uint64 { x % WORD }

  function Booked(t: Table, u: Usage, hash: Hash, now: int): Table {
    if u.imsi == [] then t
    else
      var s := if u.imsi in t then t[u.imsi] else Metered(hash(u.imsi), [], PHASE, 0, 0, now);
      t[u.imsi := s.(up := Wrapped(s.up + u.up), dn := Wrapped(s.dn + u.dn),
                     apn := if s.apn == [] then u.apn else s.apn)]
  }

  function TableOf(us: seq<Usage>, hash: Hash, now: int): Table {
    if us == [] then map[] else Booked(TableOf(us[..|us| - 1], hash, now), us[|us| - 1], hash, now)
  }

  /** The table's sessions, each subscriber's once, in the order of `keys`. */
  ghost predicate ListsSubscribers(out: seq<Metered>, keys: seq<Octets>, t: Table) {
    && |out| == |keys| == |t|
    && (forall i :: 0 <= i < |keys| ==> keys[i] in t && out[i] == t[keys[i]])
    && (forall i, j :: 0 <= i < j < |keys| ==> keys[i] != keys[j])
  }

  method AddUsage(t: Table, u: Usage, hash: Hash, now: int) returns (r: Table)
    ensures r == Booked(t, u, hash, now)
  {
    r := t;
    if u.imsi == [] {
      return;
    }
    if u.imsi !in r {
      r := r[u.imsi := Metered(hash(u.imsi), [], PHASE, 0, 0, now)];
    }
    var s := r[u.imsi];
    s := s.(up := Wrapped(s.up + u.up), dn := Wrapped(s.dn + u.dn));
    if s.apn == [] {
      s := s.(apn := u.apn);
    }
    r := r[u.imsi := s];
  }

  method AddUsages(t: Table, us: seq<Usage>, hash: Hash, now: int, ghost before: seq<Usage>) returns (r: Table)
    requires t == TableOf(before, hash, now)
    ensures r == TableOf(before + us, hash, now)
  {
    hide Booked;
    r := t;
    assert before + us[..0] == before;
    for i := 0 to |us|
      invariant r == TableOf(before + us[..i], hash, now)
    {
      assert (before + us[..i + 1])[..|before| + i] == before + us[..i];
      r := AddUsage(r, us[i], hash, now);
    }
    assert us[..|us|] == us;
  }

  /** A missing directory is an error; otherwise the sessions come in no particular order. */
  method Poll(directory: Directory, hash: Hash, now: int)
    returns (r: Result<seq<Metered>, Problem>, ghost keys: seq<Octets>)
    ensures r == Err(DirectoryRequired) <==> directory.Unnamed?
    ensures r == Err(NoDirectory) <==> directory.Unreadable?
    ensures r.Ok? ==> ListsSubscribers(r.value, keys, TableOf(AllUsages(directory.files), hash, now))
  {
    hide TableOf, FileFrom, UsagesOf;
    keys := [];
    if directory.Unnamed? {
      return Err(DirectoryRequired), keys;
    }
    if directory.Unreadable? {
      return Err(NoDirectory), keys;
    }
    var files := directory.files;
    var t := map[];
    assert TableOf([], hash, now) == map[] by { NoUsages(hash, now); }
    for i := 0 to |files|
      invariant t == TableOf(AllUsages(files[..i]), hash, now)
    {
      assert files[..i + 1][..i] == files[..i];
      ghost var before := AllUsages(files[..i]);
      assert before + [] == before;
      if files[i].isCdr && files[i].contents.Some? {
        var us := ParseCDRFile(files[i].contents.value);
        if us.Ok? {
          t := AddUsages(t, us.value, hash, now, before);
        }
      }
    }
    assert files[..|files|] == files;
    var out;
    out, keys := ListSubscribers(t);
    r := Ok(out);
  }

  lemma NoUsages(hash: Hash, now: int)
    ensures TableOf([], hash, now) == map[]
  {
  }

  method ListSubscribers(t: Table) returns (out: seq<Metered>, ghost keys: seq<Octets>)
    ensures ListsSubscribers(out, keys, t)
  {
    out, keys := [], [];
    var rest := t.Keys;
    while rest != {}
      invariant rest <= t.Keys && |out| == |keys| && |out| + |rest| == |t.Keys|
      invariant forall i :: 0 <= i < |keys| ==> keys[i] in t.Keys - rest && out[i] == t[keys[i]]
      invariant forall i, j :: 0 <= i < j < |keys| ==> keys[i] != keys[j]
      decreases rest
    {
      var k :| k in rest;
      out, keys := out + [t[k]], keys + [k];
      rest := rest - {k};
    }
    assert |t.Keys| == |t|;
  }

  // ---- what a session holds ----

  function SumUp(us: seq<Usage>, imsi: Octets): nat {
    if us == [] then 0 else SumUp(us[..|us| - 1], imsi) + if us[|us| - 1].imsi == imsi then us[|us| - 1].up else 0
  }

  function SumDn(us: seq<Usage>, imsi: Octets): nat {
    if us == [] then 0 else SumDn(us[..|us| - 1], imsi) + if us[|us| - 1].imsi == imsi then us[|us| - 1].dn else 0
  }

  function FirstApn(us: seq<Usage>, imsi: Octets): Octets {
    if us == [] then []
    else
      var before := FirstApn(us[..|us| - 1], imsi);
      if before == [] && us[|us| - 1].imsi == imsi then us[|us| - 1].apn else before
  }

  lemma WrapTwice(a: nat, b: nat)
    ensures Wrapped(Wrapped(a) + b) == Wrapped(a + b)
  {
    var q := a / WORD;
    assert a + b == q * WORD + (a % WORD + b);
    AddMultiple(a % WORD + b, q);
  }

  /**
   A subscriber has a session exactly when it has a record in some readable file, and the session holds,
   modulo 2^64, the sums over all its records in all of them and the first access point named.
   */
  lemma {:induction false} SessionsAreSums(us: seq<Usage>, hash: Hash, now: int, imsi: Octets)
    requires imsi != []
    ensures var t := TableOf(us, hash, now);
      && (imsi in t <==> exists i :: 0 <= i < |us| && us[i].imsi == imsi)
      && (imsi !in t ==> SumUp(us, imsi) == SumDn(us, imsi) == 0 && FirstApn(us, imsi) == [])
      && (imsi in t ==>
            t[imsi] == Metered(hash(imsi), FirstApn(us, imsi), PHASE,
                               Wrapped(SumUp(us, imsi)), Wrapped(SumDn(us, imsi)), now))
  {
    hide Wrapped;
    if us != [] {
      var init, u := us[..|us| - 1], us[|us| - 1];
      SessionsAreSums(init, hash, now, imsi);
      assert forall i :: 0 <= i < |init| ==> init[i] == us[i];
      if u.imsi == imsi {
        assert us[|us| - 1].imsi == imsi;
        WrapTwice(SumUp(init, imsi), u.up);
        WrapTwice(SumDn(init, imsi), u.dn);
        assert Wrapped(0) == 0 by { WrapNothing(); }
      }
    }
  }

  lemma WrapNothing()
    ensures Wrapped(0) == 0
  {
  }

  // ---- when records and sessions are the same ----

  ghost predicate DistinctSubscribers(us: seq<Usage>) {
    forall i, j :: 0 <= i < j < |us| ==> us[i].imsi != us[j].imsi
  }

  ghost predicate AllNamed(us: seq<Usage>) {
    forall i :: 0 <= i < |us| ==> us[i].imsi != []
  }

  /** The sessions are the records themselves, one for one. */
  ghost predicate SameAsRecords(us: seq<Usage>, hash: Hash, now: int) {
    ListsSubscribers(seq(|us|, i requires 0 <= i < |us| => SessionOf(us[i], hash, now)), Subscribers(us),
                     TableOf(us, hash, now))
  }

  function SessionOf(u: Usage, hash: Hash, now: int): Metered { Metered(hash(u.imsi), u.apn, PHASE, u.up, u.dn, now) }

  function Subscribers(us: seq<Usage>): seq<Octets> { seq(|us|, i requires 0 <= i < |us| => us[i].imsi) }

  ghost predicate Stands(us: seq<Usage>, t: Table, hash: Hash, now: int) {
    && |t| == |us|
    && (forall k <- t :: k in Subscribers(us))
    && (forall i :: 0 <= i < |us| ==> us[i].imsi in t && t[us[i].imsi] == SessionOf(us[i], hash, now))
  }

  lemma {:induction false} DistinctRecordsStand(us: seq<Usage>, hash: Hash, now: int)
    requires AllNamed(us) && DistinctSubscribers(us)
    ensures Stands(us, TableOf(us, hash, now), hash, now)
  {
    hide Booked, SessionOf, Stands;
    if us == [] {
      NothingStands(hash, now);
    } else {
      var init, u := us[..|us| - 1], us[|us| - 1];
      DistinctRecordsStand(init, hash, now);
      OneMoreStands(init, u, TableOf(init, hash, now), hash, now);
      assert us == init + [u];
    }
  }

  lemma NothingStands(hash: Hash, now: int)
    ensures Stands([], TableOf([], hash, now), hash, now)
  {
  }

  lemma OneMoreStands(us: seq<Usage>, u: Usage, t: Table, hash: Hash, now: int)
    requires Stands(us, t, hash, now) && u.imsi != [] && DistinctSubscribers(us + [u])
    ensures Stands(us + [u], Booked(t, u, hash, now), hash, now)
  {
    hide Booked, SessionOf;
    var all := us + [u];
    forall i | 0 <= i < |us| ensures us[i].imsi != u.imsi {
      assert all[i].imsi != all[|us|].imsi;
    }
    assert u.imsi !in Subscribers(us);
    assert Subscribers(all) == Subscribers(us) + [u.imsi];
    PutFresh(t, u, hash, now);
  }

  lemma PutFresh(t: Table, u: Usage, hash: Hash, now: int)
    requires u.imsi != [] && u.imsi !in t
    ensures Booked(t, u, hash, now) == t[u.imsi := SessionOf(u, hash, now)]
  {
  }

  lemma {:induction false} RecordsAreNamed(data: Octets, off: nat, num: nat)
    ensures RecordsFrom(data, off, num).Ok? ==> AllNamed(Usages(RecordsFrom(data, off, num).value))
    decreases num
  {
    hide RecordFrom;
    if num > 0 && RecordsFrom(data, off, num).Ok? {
      var (start, end) := Span(data, off).value;
      RecordsAreNamed(data, end, num - 1);
      RecordIsNamed(data[start..end]);
      var more, ps := RecordsFrom(data, end, num - 1).value, RecordsFrom(data, off, num).value;
      forall i | 0 <= i < |ps| ensures Usages(ps)[i].imsi != [] {
        if i > 0 { assert Usages(ps)[i] == Usages(more)[i - 1]; }
      }
    }
  }

  lemma FileIsNamed(data: Octets)
    requires FileFrom(data).Ok?
    ensures AllNamed(Usages(FileFrom(data).value))
  {
    hide RecordsFrom, HeaderEnd, Usages;
    HeaderInRange(data);
    RecordsAreNamed(data, HeaderEnd(data).value, RecordCount(data));
  }

  lemma RecordIsNamed(body: Octets)
    ensures RecordFrom(body).Ok? ==> RecordFrom(body).value.imsi != []
  {
  }

  /**
   For one charging file the sessions are `parseCDRFile`'s usages, one for one, exactly when no two of
   its records share a subscriber.
   */
  lemma SameAsRecordsIff(data: Octets, hash: Hash, now: int)
    requires FileFrom(data).Ok?
    ensures var us := UsagesOf(FileFrom(data)).value;
      AllUsages([File(true, Some(data))]) == us && (SameAsRecords(us, hash, now) <==> DistinctSubscribers(us))
  {
    hide FileFrom, TableOf, SameAsRecords, DistinctSubscribers;
    var f := File(true, Some(data));
    var us := UsagesOf(FileFrom(data)).value;
    assert [f][..0] == [] && AllUsages([f]) == [] + us;
    FileIsNamed(data);
    SameIffDistinct(us, hash, now);
  }

  lemma SameIffDistinct(us: seq<Usage>, hash: Hash, now: int)
    requires AllNamed(us)
    ensures SameAsRecords(us, hash, now) <==> DistinctSubscribers(us)
  {
    hide TableOf, SessionOf;
    if DistinctSubscribers(us) {
      DistinctRecordsStand(us, hash, now);
    }
    if SameAsRecords(us, hash, now) {
      forall i, j | 0 <= i < j < |us| ensures us[i].imsi != us[j].imsi {
        assert Subscribers(us)[i] != Subscribers(us)[j];
      }
    }
  }

  /** Two records of one subscriber: one session, with the sums. */
  lemma {:induction false} SharedSubscriberIsSummed(hash: Hash, now: int)
    ensures var us := [Usage([49], [], 1, 2), Usage([49], [], 3, 4)];
      && TableOf(us, hash, now) == map[[49] := Metered(hash([49]), [], PHASE, 4, 6, now)]
      && !SameAsRecords(us, hash, now)
  {
    var us := [Usage([49], [], 1, 2), Usage([49], [], 3, 4)];
    assert us[..1] == [us[0]] && us[..1][..0] == [];
    PutFresh(map[], us[0], hash, now);
    assert TableOf(us[..1], hash, now) == map[[49] := SessionOf(us[0], hash, now)];
    assert us[0].imsi == us[1].imsi && !DistinctSubscribers(us);
    SameIffDistinct(us, hash, now);
  }

  /** So any file with such records, however it was built, has fewer sessions than records. */
  lemma {:induction false} SharedSubscriberInFile(h: CdrRoundTrip.Header, es: seq<CdrRoundTrip.Entry>,
      hash: Hash, now: int)
    requires 1 <= |es| <= 0x1_0000 && h.Valid(|es|)
    requires forall e <- es :: CdrRoundTrip.LowTags(e.record.others) && e.Valid()
    requires exists i, j :: 0 <= i < j < |es| && es[i].record.imsi == es[j].record.imsi
    ensures var data := CdrRoundTrip.HeaderOctets(h) + (CdrRoundTrip.EntriesOctets(es) + []);
      FileFrom(data).Ok? && !SameAsRecords(UsagesOf(FileFrom(data)).value, hash, now)
  {
    hide FileFrom, CdrRoundTrip.HeaderOctets, CdrRoundTrip.EntriesOctets, SameAsRecords;
    var data := CdrRoundTrip.HeaderOctets(h) + (CdrRoundTrip.EntriesOctets(es) + []);
    CdrRoundTrip.FileReadsBack(h, es, []);
    var us := CdrRoundTrip.Reports(es);
    assert UsagesOf(FileFrom(data)) == Ok(us);
    var i, j :| 0 <= i < j < |es| && es[i].record.imsi == es[j].record.imsi;
    assert us[i].imsi == us[j].imsi && !DistinctSubscribers(us);
    SameAsRecordsIff(data, hash, now);
  }
}
