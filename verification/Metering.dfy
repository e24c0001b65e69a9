/**
 From packets to stored usage: the tunnel accountant (core/fairwave-control/internal/collector/upf.go),
 polled for its snapshots, and the fold of those polls (core/fairwave-control/internal/api/server.go).
 */
module Metering {
  import opened Bytes
  import opened Usage
  import opened UsageRuns
  import Accountant
  import AccountantRuns

  /**
   A packet is seen, the accountant is polled, or the session table is folded. A poll lists its
   sessions in some order.
   */
  datatype Event = Packet(packet: Octets) | Polled(order: seq<string>) | Folded

  datatype Meter = Meter(accounts: Accountant.State, books: State)

  function SessionOf(hash: Hash, imsi: string, c: Accountant.Counters): Session { Session(hash(imsi), c.up, c.dn) }

  function Listing(hash: Hash, m: map<string, Accountant.Counters>, order: seq<string>): seq<Session>
    requires forall i :: 0 <= i < |order| ==> order[i] in m
  {
    seq(|order|, i requires 0 <= i < |order| => SessionOf(hash, order[i], m[order[i]]))
  }

  /** The order names every session of the snapshot once. */
  ghost predicate Orders(order: seq<string>, m: map<string, Accountant.Counters>) {
    && (forall id: string :: id in order <==> id in m)
    && (forall i, j :: 0 <= i < j < |order| ==> order[i] != order[j])
  }

  ghost function Happen(m: Meter, hash: Hash, fairUse: bool, e: Event): Meter {
    match e
    case Packet(packet) => m.(accounts := Accountant.Step(m.accounts, Accountant.EventOf(packet)))
    case Polled(order) =>
      var sessions := Accountant.Sessions(m.accounts);
      if Orders(order, sessions) then
        Meter(Accountant.SnapshotIn(m.accounts), Collected(m.books, hash, Listing(hash, sessions, order)))
      else m
    case Folded => m.(books := Accumulated(m.books, hash, fairUse))
  }

  ghost function AfterEvents(books: State, hash: Hash, fairUse: bool, es: seq<Event>): Meter {
    if es == [] then Meter(Accountant.EMPTY, books)
    else Happen(AfterEvents(books, hash, fairUse, es[..|es| - 1]), hash, fairUse, es[|es| - 1])
  }

  /** Every poll lists the snapshot it takes. */
  ghost predicate Proper(books: State, hash: Hash, fairUse: bool, es: seq<Event>) {
    es == [] ||
    var init, e := es[..|es| - 1], es[|es| - 1];
    && Proper(books, hash, fairUse, init)
    && (e.Polled? ==> Orders(e.order, Accountant.Sessions(AfterEvents(books, hash, fairUse, init).accounts)))
  }

  // ---- the accountant's side ----

  function HistoryOf(es: seq<Event>): seq<AccountantRuns.Action> {
    if es == [] then []
    else
      var h := HistoryOf(es[..|es| - 1]);
      match es[|es| - 1]
      case Packet(packet) => h + [AccountantRuns.See(packet)]
      case Polled(_) => h + [AccountantRuns.Snapshot]
      case Folded => h
  }

  lemma {:induction false} AccountsFollowHistory(books: State, hash: Hash, fairUse: bool, es: seq<Event>)
    requires Proper(books, hash, fairUse, es)
    ensures AfterEvents(books, hash, fairUse, es).accounts == AccountantRuns.After(HistoryOf(es))
  {
    hide Collected, Accumulated, Orders, Listing;
    if es != [] {
      AccountsFollowHistory(books, hash, fairUse, es[..|es| - 1]);
      var h := HistoryOf(es[..|es| - 1]);
      assert forall a: AccountantRuns.Action :: (h + [a])[..|h|] == h;
    }
  }

  function PointFor(c: Accountant.Counters): Point { Point(c.up, c.dn) }

  /** What the history owed a subscriber at the last poll. */
  ghost function OwedAtPoll(es: seq<Event>, imsi: string): Point {
    if es == [] then ZERO
    else if es[|es| - 1].Polled? then PointFor(AccountantRuns.CreditTo(HistoryOf(es[..|es| - 1]), imsi))
    else OwedAtPoll(es[..|es| - 1], imsi)
  }

  /** What it owed at the last poll before the last fold. */
  ghost function OwedAtFold(es: seq<Event>, imsi: string): Point {
    if es == [] then ZERO
    else if es[|es| - 1].Folded? then OwedAtPoll(es[..|es| - 1], imsi)
    else OwedAtFold(es[..|es| - 1], imsi)
  }

  lemma {:induction false} OwedOnlyGrows(es: seq<Event>, imsi: string)
    ensures AtMost(OwedAtPoll(es, imsi), PointFor(AccountantRuns.CreditTo(HistoryOf(es), imsi)))
    ensures AtMost(OwedAtFold(es, imsi), OwedAtPoll(es, imsi))
  {
    hide AccountantRuns.CreditTo;
    if es != [] {
      var init := es[..|es| - 1];
      OwedOnlyGrows(init, imsi);
      HistoryGrows(es);
      AccountantRuns.CreditOnlyGrows(HistoryOf(init), HistoryOf(es)[|HistoryOf(init)|..], imsi);
      assert HistoryOf(init) + HistoryOf(es)[|HistoryOf(init)|..] == HistoryOf(es);
    }
  }

  lemma HistoryGrows(es: seq<Event>)
    requires es != []
    ensures HistoryOf(es[..|es| - 1]) <= HistoryOf(es)
  {
  }

  // ---- the table a poll leaves ----

  lemma {:induction false} ReadingsOfListing(hash: Hash, m: map<string, Accountant.Counters>, order: seq<string>,
      imsi: string)
    requires Injective(hash) && forall i :: 0 <= i < |order| ==> order[i] in m
    requires forall i, j :: 0 <= i < j < |order| ==> order[i] != order[j]
    ensures hash(imsi) in Readings(Listing(hash, m, order)) <==> imsi in order
    ensures PointOf(Readings(Listing(hash, m, order)), hash(imsi)) == if imsi in order then PointFor(m[imsi]) else ZERO
  {
    if order != [] {
      var init, id := order[..|order| - 1], order[|order| - 1];
      ReadingsOfListing(hash, m, init, imsi);
      ReadingsOfListing(hash, m, init, id);
      assert Listing(hash, m, order)[..|order| - 1] == Listing(hash, m, init);
      assert id !in init by {
        assert forall i :: 0 <= i < |init| ==> init[i] == order[i] && order[i] != order[|order| - 1];
      }
      assert order == init + [id];
      PlusZeroLeft(PointFor(m[id]));
    }
  }

  lemma PlusZeroLeft(p: Point)
    ensures Plus(ZERO, p) == p
  {
  }

  /** The reading of a subscriber is what the history owes it. */
  lemma PollReadsCredit(hash: Hash, h: seq<AccountantRuns.Action>, order: seq<string>, imsi: string)
    requires Injective(hash) && Orders(order, Accountant.Sessions(AccountantRuns.After(h)))
    ensures PointOf(Readings(Listing(hash, Accountant.Sessions(AccountantRuns.After(h)), order)), hash(imsi))
         == PointFor(AccountantRuns.CreditTo(h, imsi))
  {
    hide AccountantRuns.After, AccountantRuns.CreditTo, Listing, Readings;
    var s := AccountantRuns.After(h);
    AccountantRuns.CountersAreCredits(h, imsi);
    assert forall i :: 0 <= i < |order| ==> order[i] in order;
    ReadingsOfListing(hash, Accountant.Sessions(s), order, imsi);
  }

  // ---- stored usage ----

  /** What holds of one SIM all along: the table, the baseline and the books against what is owed. */
  ghost predicate BooksAgree(books: State, hash: Hash, imsi: string, polled: Point, folded: Point) {
    && imsi in books.sims
    && PointOf(Readings(books.sessions), hash(imsi)) == polled
    && PointOf(books.lastUsage, hash(imsi)) == folded
    && BytesOf(books, imsi) == folded
  }

  lemma FoldAgrees(books: State, hash: Hash, fairUse: bool, imsi: string, polled: Point, folded: Point)
    requires BooksAgree(books, hash, imsi, polled, folded) && AtMost(folded, polled) && imsi != ""
    ensures BooksAgree(Accumulated(books, hash, fairUse), hash, imsi, polled, polled)
  {
    hide Readings, Plus, Delta;
    OneFold(books, hash, fairUse, imsi);
    GrowsTo(folded, polled);
    AccumulatedKeeps(books, hash, fairUse, imsi);
    if hash(imsi) !in Readings(books.sessions) { AtMostZero(folded); }
  }

  lemma AccumulatedKeeps(books: State, hash: Hash, fairUse: bool, imsi: string)
    ensures Accumulated(books, hash, fairUse).sessions == books.sessions
    ensures imsi in books.sims ==> imsi in Accumulated(books, hash, fairUse).sims
  {
    hide Growth, Readings;
  }

  lemma AtMostZero(p: Point)
    requires AtMost(p, ZERO)
    ensures p == ZERO
  {
  }

  lemma GrowsTo(a: Point, b: Point)
    requires AtMost(a, b)
    ensures Plus(a, Delta(a, b)) == b
  {
    assert b == Point(b.up, b.dn);
  }

  lemma {:induction false} BooksAlwaysAgree(books: State, hash: Hash, fairUse: bool, es: seq<Event>, imsi: string)
    requires Injective(hash) && Proper(books, hash, fairUse, es)
    requires books.sessions == [] && imsi in books.sims && imsi != "" && Unseen(books, hash, imsi)
    ensures BooksAgree(AfterEvents(books, hash, fairUse, es).books, hash, imsi, OwedAtPoll(es, imsi),
        OwedAtFold(es, imsi))
  {
    hide Accumulated, Readings, Listing, Orders, Collected;
    if es == [] {
      assert Readings([]) == map[] by { NoReadings(); }
    } else {
      var init := es[..|es| - 1];
      var m := AfterEvents(books, hash, fairUse, init);
      BooksAlwaysAgree(books, hash, fairUse, init, imsi);
      match es[|es| - 1]
      case Packet(_) =>
      case Polled(order) =>
        AccountsFollowHistory(books, hash, fairUse, init);
        PollReadsCredit(hash, HistoryOf(init), order, imsi);
        OrdersNames(order, Accountant.Sessions(m.accounts));
        CollectedKeeps(m.books, hash, Listing(hash, Accountant.Sessions(m.accounts), order), imsi);
      case Folded =>
        OwedOnlyGrows(init, imsi);
        FoldAgrees(m.books, hash, fairUse, imsi, OwedAtPoll(init, imsi), OwedAtFold(init, imsi));
    }
  }

  lemma NoReadings()
    ensures Readings([]) == map[]
  {
  }

  lemma OrdersNames(order: seq<string>, m: map<string, Accountant.Counters>)
    requires Orders(order, m)
    ensures forall i :: 0 <= i < |order| ==> order[i] in m
  {
    assert forall i :: 0 <= i < |order| ==> order[i] in order;
  }

  lemma CollectedKeeps(books: State, hash: Hash, sessions: seq<Session>, imsi: string)
    ensures var t := Collected(books, hash, sessions);
      && t.sessions == sessions && t.lastUsage == books.lastUsage && t.usage == books.usage
      && (imsi in books.sims <==> imsi in t.sims)
  {
  }

  /**
   End to end: for a SIM in the store throughout, over every sequence of packets, polls and folds, stored
   usage is exactly what the packets seen up to the last folded poll owe the subscriber.
   */
  lemma StoredIsOwed(books: State, hash: Hash, fairUse: bool, es: seq<Event>, imsi: string)
    requires Injective(hash) && Proper(books, hash, fairUse, es)
    requires books.sessions == [] && imsi in books.sims && imsi != "" && Unseen(books, hash, imsi)
    ensures BytesOf(AfterEvents(books, hash, fairUse, es).books, imsi) == OwedAtFold(es, imsi)
  {
    hide AfterEvents, OwedAtFold, OwedAtPoll, Readings;
    BooksAlwaysAgree(books, hash, fairUse, es, imsi);
  }

  /** In particular a poll and a fold bring the books up to date. */
  lemma PollAndFoldCatchUp(books: State, hash: Hash, fairUse: bool, es: seq<Event>, order: seq<string>, imsi: string)
    requires Injective(hash) && Proper(books, hash, fairUse, es + [Polled(order)] + [Folded])
    requires books.sessions == [] && imsi in books.sims && imsi != "" && Unseen(books, hash, imsi)
    ensures BytesOf(AfterEvents(books, hash, fairUse, es + [Polled(order)] + [Folded]).books, imsi)
         == PointFor(AccountantRuns.CreditTo(HistoryOf(es), imsi))
  {
    hide AfterEvents, Proper, AccountantRuns.CreditTo;
    StoredIsOwed(books, hash, fairUse, es + [Polled(order)] + [Folded], imsi);
    var polled := es + [Polled(order)];
    assert polled[..|es|] == es && (polled + [Folded])[..|polled|] == polled;
  }
}
