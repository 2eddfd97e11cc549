// Cursor-based synchronisation of launches with the sales feed.
module GumroadSync {
  import opened Common
  import opened RevenueAttribution

  /** A feed entry, newest first in its feed; `tracking` is the id its fields mention. */
  datatype FeedSale = FeedSale(id: nat, cents: int, tracking: Option<nat>, soldAt: When)

  datatype LaunchRecord = LaunchRecord(product: Option<nat>, cursor: Option<nat>, sales: nat, cents: int,
                                       lastSync: Option<int>)

  /** An entry as listed by the feed: its id may be blank. */
  datatype FeedEntry = FeedEntry(id: Option<nat>, cents: int, tracking: Option<nat>, soldAt: When)

  /** The entries that have an id. */
  function Identified(feed: seq<FeedEntry>): seq<FeedSale> {
    if feed == [] then []
    else (if feed[0].id.Some? then [SaleIn(feed[0])] else []) + Identified(feed[1..])
  }

  function SaleIn(e: FeedEntry): FeedSale
    requires e.id.Some?
  {
    FeedSale(e.id.value, e.cents, e.tracking, e.soldAt)
  }

  function FeedOf(feeds: map<nat, seq<FeedEntry>>, product: nat): seq<FeedEntry> {
    if product in feeds then feeds[product] else []
  }

  /** The feed up to, and without, the sale the cursor names. */
  function NewSales(feed: seq<FeedSale>, cursor: Option<nat>): seq<FeedSale>
  {
    if feed == [] || Some(feed[0].id) == cursor then [] else [feed[0]] + NewSales(feed[1..], cursor)
  }

  function FeedCents(sales: seq<FeedSale>): int {
    if sales == [] then 0 else sales[0].cents + FeedCents(sales[1..])
  }

  function Synced(l: LaunchRecord, feed: seq<FeedSale>, now: int): LaunchRecord {
    var sales := NewSales(feed, l.cursor);
    LaunchRecord(l.product, if sales == [] then l.cursor else Some(sales[0].id),
                 l.sales + |sales|, l.cents + FeedCents(sales), Some(now))
  }

  function SyncedLaunch(l: LaunchRecord, feeds: map<nat, seq<FeedEntry>>, now: int): LaunchRecord {
    if l.product.None? then l else Synced(l, Identified(FeedOf(feeds, l.product.value)), now)
  }

  /** The subreddit a synced sale is credited to: that of its tracking, whatever its channel. */
  function CreditedTo(sale: FeedSale, items: map<nat, Tracking>): Option<nat> {
    if sale.tracking.Some? && sale.tracking.value in items then items[sale.tracking.value].subreddit else None
  }

  function CountOf(counts: map<nat, nat>, subreddit: nat): nat {
    if subreddit in counts then counts[subreddit] else 0
  }

  function Bumped(counts: map<nat, nat>, subreddit: nat): map<nat, nat> {
    counts[subreddit := CountOf(counts, subreddit) + 1]
  }

  /** The sales counts per subreddit after these sales. */
  function Credited(counts: map<nat, nat>, sales: seq<FeedSale>, items: map<nat, Tracking>): map<nat, nat> {
    if sales == [] then counts
    else
      var before, to := Credited(counts, sales[..|sales| - 1], items), CreditedTo(sales[|sales| - 1], items);
      if to.Some? then Bumped(before, to.value) else before
  }

  /** Each new sale is attributed once, in feed order. */
  function Attributed(r: Revenue, sales: seq<FeedSale>, windowHours: nat, now: int): Revenue {
    if sales == [] then r
    else
      var before := Attributed(r, sales[..|sales| - 1], windowHours, now);
      var sale := sales[|sales| - 1];
      if sale.tracking.None? then before
      else Recorded(before, SaleRequest(sale.tracking.value, 1, sale.cents, Some(sale.id), sale.soldAt, now), windowHours)
  }

  function CreditedIfKept(counts: Option<map<nat, nat>>, sales: seq<FeedSale>, items: map<nat, Tracking>): Option<map<nat, nat>> {
    if counts.None? then None else Some(Credited(counts.value, sales, items))
  }

  datatype Report = Report(synced: nat, newSales: nat, cents: int)

  function NewFor(l: LaunchRecord, feeds: map<nat, seq<FeedEntry>>): seq<FeedSale> {
    if l.product.None? then [] else NewSales(Identified(FeedOf(feeds, l.product.value)), l.cursor)
  }

  /** The new sales of all launches from position `i` down, newest launch first. */
  function AllNew(launches: seq<LaunchRecord>, feeds: map<nat, seq<FeedEntry>>, i: nat): seq<FeedSale>
    requires i <= |launches|
    decreases |launches| - i
  {
    if i == |launches| then []
    else AllNew(launches, feeds, i + 1) + NewFor(launches[i], feeds)
  }

  /** Everything a sync changes: launches, attributed sales, and the counts per subreddit if they are kept. */
  datatype Books = Books(launches: seq<LaunchRecord>, revenue: Revenue, counts: Option<map<nat, nat>>)

  /** One launch synced: its new sales are attributed and credited. */
  function OneSynced(b: Books, feeds: map<nat, seq<FeedEntry>>, windowHours: nat, now: int, i: nat): Books
    requires i < |b.launches|
  {
    var sales := NewFor(b.launches[i], feeds);
    Books(b.launches[i := SyncedLaunch(b.launches[i], feeds, now)], Attributed(b.revenue, sales, windowHours, now),
          CreditedIfKept(b.counts, sales, b.revenue.items))
  }

  /** Exactly the launches from position `i` on have been synced, and their new sales attributed and
      credited once each, in order. */
  ghost predicate SyncedFrom(before: Books, after: Books, feeds: map<nat, seq<FeedEntry>>, windowHours: nat, now: int, i: nat) {
    && |after.launches| == |before.launches| && i <= |before.launches|
    && (forall j | 0 <= j < |after.launches| ::
          after.launches[j] == if j < i then before.launches[j] else SyncedLaunch(before.launches[j], feeds, now))
    && after.revenue == Attributed(before.revenue, AllNew(before.launches, feeds, i), windowHours, now)
    && after.revenue.items == before.revenue.items
    && after.counts == CreditedIfKept(before.counts, AllNew(before.launches, feeds, i), before.revenue.items)
  }

  /** How many launches from position `i` on are linked to a product. */
  function LinkedFrom(launches: seq<LaunchRecord>, i: nat): nat
    requires i <= |launches|
    decreases |launches| - i
  {
    if i == |launches| then 0
    else LinkedFrom(launches, i + 1) + if launches[i].product.Some? then 1 else 0
  }

  /** The launches synced, and the number and cents of their new sales. */
  function ReportFrom(launches: seq<LaunchRecord>, feeds: map<nat, seq<FeedEntry>>, i: nat): Report
    requires i <= |launches|
  {
    var sales := AllNew(launches, feeds, i);
    Report(LinkedFrom(launches, i), |sales|, FeedCents(sales))
  }

  function Reported(r: Report, linked: bool, sales: seq<FeedSale>): Report {
    Report(r.synced + (if linked then 1 else 0), r.newSales + |sales|, r.cents + FeedCents(sales))
  }

  class SubredditPerformanceStore {
    var sales: map<nat, nat>

    constructor ()
      ensures sales == map[]
    {
      sales := map[];
    }

    method RecordSale(subreddit: nat)
      modifies this
      ensures sales == Bumped(old(sales), subreddit)
    {
      if subreddit !in sales {
        sales := sales[subreddit := 0];
      }
      sales := sales[subreddit := sales[subreddit] + 1];
    }
  }

  /** Only one of the two places that build the service gives it a performance store. */
  class GumroadSyncService {
    var launches: seq<LaunchRecord>
    const revenue: RevenueAttributionStore
    const performance: SubredditPerformanceStore?

    constructor (launches: seq<LaunchRecord>, revenue: RevenueAttributionStore, performance: SubredditPerformanceStore?)
      ensures this.launches == launches && this.revenue == revenue && this.performance == performance
    {
      this.launches, this.revenue, this.performance := launches, revenue, performance;
    }

    /** The counts per subreddit, when they are kept. */
    ghost function Counts(): Option<map<nat, nat>>
      reads performance
    {
      if performance == null then None else Some(performance.sales)
    }

    ghost function State(): Books
      reads this, revenue, performance
    {
      Books(launches, revenue.State(), Counts())
    }

    method SyncSales(feeds: map<nat, seq<FeedEntry>>, now: int) returns (report: Report)
      modifies this, revenue, performance
      ensures SyncedFrom(old(State()), State(), feeds, revenue.windowHours, now, 0)
      ensures report == ReportFrom(old(launches), feeds, 0)
    {
      report := Report(0, 0, 0);
      ghost var before := State();
      var i := |launches|;
      NothingSynced(before, feeds, revenue.windowHours, now);
      while i > 0
        invariant 0 <= i <= |launches| && SyncedFrom(before, State(), feeds, revenue.windowHours, now, i)
        invariant report == ReportFrom(before.launches, feeds, i)
      {
        i := i - 1;
        assert launches[i] == before.launches[i];
        OneMoreSynced(before, State(), feeds, revenue.windowHours, now, i);
        OneMoreReport(before.launches, feeds, i);
        var linked := launches[i].product.Some?;
        var sales := SyncIfLinked(i, feeds, now);
        report := Reported(report, linked, sales);
      }
    }

    /** A launch without a product is skipped. */
    method SyncIfLinked(i: nat, feeds: map<nat, seq<FeedEntry>>, now: int) returns (sales: seq<FeedSale>)
      requires i < |launches|
      modifies this, revenue`sales, performance
      ensures sales == NewFor(old(launches)[i], feeds)
      ensures State() == OneSynced(old(State()), feeds, revenue.windowHours, now, i)
    {
      if launches[i].product.None? {
        return [];
      }
      sales := SyncLaunch(i, FeedOf(feeds, launches[i].product.value), now);
    }

    method SyncLaunch(i: nat, feed: seq<FeedEntry>, now: int) returns (sales: seq<FeedSale>)
      requires i < |launches|
      modifies this, revenue`sales, performance
      ensures sales == NewSales(Identified(feed), old(launches)[i].cursor)
      ensures launches == old(launches)[i := Synced(old(launches)[i], Identified(feed), now)]
      ensures revenue.State() == Attributed(old(revenue.State()), sales, revenue.windowHours, now)
      ensures Counts() == CreditedIfKept(old(Counts()), sales, revenue.items)
    {
      var l := launches[i];
      sales := CollectNew(feed, l.cursor);
      var newest := l.cursor;
      if sales != [] {
        launches := launches[i := launches[i].(sales := l.sales + |sales|, cents := l.cents + FeedCents(sales))];
        newest := Some(sales[0].id);
        AttributeAll(sales, now);
      }
      launches := launches[i := launches[i].(lastSync := Some(now), cursor := newest)];
    }

    method AttributeAll(sales: seq<FeedSale>, now: int)
      modifies revenue`sales, performance
      ensures revenue.State() == Attributed(old(revenue.State()), sales, revenue.windowHours, now)
      ensures Counts() == CreditedIfKept(old(Counts()), sales, revenue.items)
    {
      for i := 0 to |sales|
        invariant revenue.State() == Attributed(old(revenue.State()), sales[..i], revenue.windowHours, now)
        invariant Counts() == CreditedIfKept(old(Counts()), sales[..i], revenue.items)
      {
        assert sales[..i + 1][..i] == sales[..i];
        var sale := sales[i];
        if sale.tracking.Some? {
          var attributed := revenue.RecordSale(
            SaleRequest(sale.tracking.value, 1, sale.cents, Some(sale.id), sale.soldAt, now));
          if attributed.Some? && performance != null && attributed.value.subreddit.Some? {
            performance.RecordSale(attributed.value.subreddit.value);
          }
        }
      }
      assert sales[..|sales|] == sales;
    }
  }

  lemma NothingSynced(b: Books, feeds: map<nat, seq<FeedEntry>>, windowHours: nat, now: int)
    ensures SyncedFrom(b, b, feeds, windowHours, now, |b.launches|)
    ensures ReportFrom(b.launches, feeds, |b.launches|) == Report(0, 0, 0)
  {
  }

  lemma OneMoreSynced(before: Books, b: Books, feeds: map<nat, seq<FeedEntry>>, windowHours: nat, now: int, i: nat)
    requires i < |b.launches| && SyncedFrom(before, b, feeds, windowHours, now, i + 1)
    ensures SyncedFrom(before, OneSynced(b, feeds, windowHours, now, i), feeds, windowHours, now, i)
  {
    var earlier, sales := AllNew(before.launches, feeds, i + 1), NewFor(b.launches[i], feeds);
    AttributedConcat(before.revenue, earlier, sales, windowHours, now);
    AttributedKeepsItems(b.revenue, sales, windowHours, now);
    if before.counts.Some? {
      CreditedConcat(before.counts.value, earlier, sales, before.revenue.items);
    }
  }

  lemma {:induction false} AttributedKeepsItems(r: Revenue, sales: seq<FeedSale>, windowHours: nat, now: int)
    ensures Attributed(r, sales, windowHours, now).items == r.items
  {
    if sales != [] {
      AttributedKeepsItems(r, sales[..|sales| - 1], windowHours, now);
    }
  }

  lemma OneMoreReport(launches: seq<LaunchRecord>, feeds: map<nat, seq<FeedEntry>>, i: nat)
    requires i < |launches|
    ensures ReportFrom(launches, feeds, i)
         == Reported(ReportFrom(launches, feeds, i + 1), launches[i].product.Some?, NewFor(launches[i], feeds))
  {
    CentsConcat(AllNew(launches, feeds, i + 1), NewFor(launches[i], feeds));
  }

  /** What a launch's feed lists before its cursor. */
  method CollectNew(feed: seq<FeedEntry>, cursor: Option<nat>) returns (sales: seq<FeedSale>)
    ensures sales == NewSales(Identified(feed), cursor)
    ensures exists at :: ReadsAt(feed, cursor, sales, at)
  {
    sales := WalkFeed(feed, cursor);
    ghost var at := ReadingMeans(feed, cursor);
  }

  /** Walks the feed until it meets the cursor, passing over entries without an id. */
  method WalkFeed(feed: seq<FeedEntry>, cursor: Option<nat>) returns (sales: seq<FeedSale>)
    ensures sales == NewSales(Identified(feed), cursor)
  {
    sales := [];
    var i := 0;
    assert feed[0..] == feed;
    while i < |feed|
      invariant 0 <= i <= |feed|
      invariant NewSales(Identified(feed), cursor) == sales + Unread(feed, cursor, i)
    {
      WalkStep(feed, cursor, sales, i);
      if feed[i].id.Some? {
        if feed[i].id == cursor {
          return;
        }
        sales := sales + [SaleIn(feed[i])];
      }
      i := i + 1;
    }
  }

  ghost function Unread(feed: seq<FeedEntry>, cursor: Option<nat>, i: nat): seq<FeedSale>
    requires i <= |feed|
  {
    NewSales(Identified(feed[i..]), cursor)
  }

  lemma UnreadStep(feed: seq<FeedEntry>, cursor: Option<nat>, i: nat)
    requires i < |feed|
    ensures Unread(feed, cursor, i) ==
              if feed[i].id.None? then Unread(feed, cursor, i + 1)
              else if feed[i].id == cursor then []
              else [SaleIn(feed[i])] + Unread(feed, cursor, i + 1)
  {
    NextEntry(feed, i);
    if feed[i].id.Some? {
      NewSalesStep(SaleIn(feed[i]), Identified(feed[i + 1..]), cursor);
    }
  }

  lemma WalkStep(feed: seq<FeedEntry>, cursor: Option<nat>, sales: seq<FeedSale>, i: nat)
    requires i < |feed|
    ensures sales + Unread(feed, cursor, i) ==
              if feed[i].id.None? then sales + Unread(feed, cursor, i + 1)
              else if feed[i].id == cursor then sales
              else (sales + [SaleIn(feed[i])]) + Unread(feed, cursor, i + 1)
  {
    UnreadStep(feed, cursor, i);
    if feed[i].id.Some? && feed[i].id != cursor {
      Regroup(sales, [SaleIn(feed[i])], Unread(feed, cursor, i + 1));
    }
  }

  lemma NextEntry(feed: seq<FeedEntry>, i: nat)
    requires i < |feed|
    ensures Identified(feed[i..])
         == if feed[i].id.Some? then [SaleIn(feed[i])] + Identified(feed[i + 1..]) else Identified(feed[i + 1..])
  {
    assert feed[i..][1..] == feed[i + 1..];
    assert [] + Identified(feed[i + 1..]) == Identified(feed[i + 1..]);
  }

  lemma NewSalesStep(sale: FeedSale, rest: seq<FeedSale>, cursor: Option<nat>)
    ensures NewSales([sale] + rest, cursor) == if Some(sale.id) == cursor then [] else [sale] + NewSales(rest, cursor)
  {
    assert ([sale] + rest)[1..] == rest;
  }

  lemma {:induction false} AttributedConcat(r: Revenue, a: seq<FeedSale>, b: seq<FeedSale>, windowHours: nat, now: int)
    ensures Attributed(r, a + b, windowHours, now) == Attributed(Attributed(r, a, windowHours, now), b, windowHours, now)
  {
    if b == [] {
      assert a + b == a;
    } else {
      AttributedConcat(r, a, b[..|b| - 1], windowHours, now);
      assert (a + b)[..|a + b| - 1] == a + b[..|b| - 1];
    }
  }

  lemma {:induction false} CreditedConcat(counts: map<nat, nat>, a: seq<FeedSale>, b: seq<FeedSale>, items: map<nat, Tracking>)
    ensures Credited(counts, a + b, items) == Credited(Credited(counts, a, items), b, items)
  {
    if b == [] {
      assert a + b == a;
    } else {
      CreditedConcat(counts, a, b[..|b| - 1], items);
      assert (a + b)[..|a + b| - 1] == a + b[..|b| - 1];
    }
  }

  /** The sales credited to one subreddit. */
  function SalesOf(sales: seq<FeedSale>, items: map<nat, Tracking>, subreddit: nat): seq<FeedSale> {
    if sales == [] then []
    else
      var last := sales[|sales| - 1];
      SalesOf(sales[..|sales| - 1], items, subreddit) + if CreditedTo(last, items) == Some(subreddit) then [last] else []
  }

  /** Each subreddit's count grows by exactly the synced sales whose tracking names it. */
  lemma {:induction false} CreditsAreExact(counts: map<nat, nat>, sales: seq<FeedSale>, items: map<nat, Tracking>, x: nat)
    ensures CountOf(Credited(counts, sales, items), x) == CountOf(counts, x) + |SalesOf(sales, items, x)|
    ensures var after, earlier := Credited(counts, sales, items), if x in counts then counts[x] else 0;
            && (x in after <==> x in counts || SalesOf(sales, items, x) != [])
            && (x in after ==> after[x] == earlier + |SalesOf(sales, items, x)|)
  {
    if sales != [] {
      CreditsAreExact(counts, sales[..|sales| - 1], items, x);
    }
  }

  function KnownSales(sales: seq<FeedSale>, items: map<nat, Tracking>): seq<FeedSale> {
    if sales == [] then []
    else
      var last := sales[|sales| - 1];
      KnownSales(sales[..|sales| - 1], items)
      + if last.tracking.Some? && last.tracking.value in items then [last] else []
  }

  /** Attribution records one sale, to the cent, for each synced sale with a known tracking. */
  lemma {:induction false} AttributionConserves(r: Revenue, sales: seq<FeedSale>, windowHours: nat, now: int)
    ensures var r', known := Attributed(r, sales, windowHours, now), KnownSales(sales, r.items);
            && r'.items == r.items
            && |r'.sales| == |r.sales| + |known|
            && SumCents(r'.sales) == SumCents(r.sales) + FeedCents(known)
  {
    if sales != [] {
      var n := |sales| - 1;
      var before, sale := Attributed(r, sales[..n], windowHours, now), sales[n];
      AttributionConserves(r, sales[..n], windowHours, now);
      if sale.tracking.Some? && sale.tracking.value in r.items {
        var q := SaleRequest(sale.tracking.value, 1, sale.cents, Some(sale.id), sale.soldAt, now);
        RevenueIsConserved(before, q, windowHours);
        CentsConcat(KnownSales(sales[..n], r.items), [sale]);
      } else {
        assert KnownSales(sales, r.items) == KnownSales(sales[..n], r.items);
      }
    }
  }

  lemma {:induction false} CentsConcat(a: seq<FeedSale>, b: seq<FeedSale>)
    ensures FeedCents(a + b) == FeedCents(a) + FeedCents(b)
  {
    if a == [] {
      assert a + b == b;
    } else {
      CentsConcat(a[1..], b);
      assert (a + b)[1..] == a[1..] + b;
    }
  }

  // ----- The feed as it is listed -----

  /** No entry from `from` to `i` is the one the cursor names. */
  ghost predicate BeforeCursor(feed: seq<FeedEntry>, cursor: Option<nat>, from: nat, i: nat)
    requires i < |feed|
  {
    cursor.Some? ==> forall j | from <= j <= i :: feed[j].id != cursor
  }

  ghost predicate PositionsRead(feed: seq<FeedEntry>, cursor: Option<nat>, from: nat, at: seq<nat>) {
    && (forall k, l | 0 <= k < l < |at| :: at[k] < at[l])
    && (forall i: nat :: i in at <==> from <= i < |feed| && feed[i].id.Some? && BeforeCursor(feed, cursor, from, i))
  }

  ghost predicate Copies(e: FeedEntry, s: FeedSale) {
    e.id == Some(s.id) && e.cents == s.cents && e.tracking == s.tracking && e.soldAt == s.soldAt
  }

  ghost predicate AllCopied(feed: seq<FeedEntry>, sales: seq<FeedSale>, at: seq<nat>) {
    |at| == |sales| && forall k | 0 <= k < |at| :: at[k] < |feed| && Copies(feed[at[k]], sales[k])
  }

  /** `sales` are, in feed order, exactly the entries that have an id and stand before the cursor, each
      with its own id, cents, tracking and time; `at` are their positions. */
  ghost predicate ReadsAt(feed: seq<FeedEntry>, cursor: Option<nat>, sales: seq<FeedSale>, at: seq<nat>) {
    PositionsRead(feed, cursor, 0, at) && AllCopied(feed, sales, at)
  }

  lemma PositionsFurther(feed: seq<FeedEntry>, cursor: Option<nat>, from: nat, at: seq<nat>)
    requires from < |feed| && (cursor.Some? ==> feed[from].id != cursor) && PositionsRead(feed, cursor, from + 1, at)
    ensures PositionsRead(feed, cursor, from, if feed[from].id.Some? then [from] + at else at)
  {
    var all := if feed[from].id.Some? then [from] + at else at;
    forall k | 0 <= k < |at| ensures at[k] > from {
      assert at[k] in at;
    }
    forall i: nat ensures i in all <==> from <= i < |feed| && feed[i].id.Some? && BeforeCursor(feed, cursor, from, i) {
      if from < i < |feed| {
        assert BeforeCursor(feed, cursor, from, i) <==> BeforeCursor(feed, cursor, from + 1, i);
      }
    }
  }

  lemma CopiedOneMore(feed: seq<FeedEntry>, sales: seq<FeedSale>, at: seq<nat>, from: nat, s: FeedSale)
    requires AllCopied(feed, sales, at) && from < |feed| && Copies(feed[from], s)
    ensures AllCopied(feed, [s] + sales, [from] + at)
  {
  }

  lemma NothingRead(feed: seq<FeedEntry>, cursor: Option<nat>, from: nat)
    requires from >= |feed| || (cursor.Some? && feed[from].id == cursor)
    ensures PositionsRead(feed, cursor, from, [])
  {
    forall i: nat | from <= i < |feed| ensures !BeforeCursor(feed, cursor, from, i) {
      assert feed[from].id == cursor;
    }
  }

  lemma {:induction false} ReadingFrom(feed: seq<FeedEntry>, cursor: Option<nat>, from: nat) returns (at: seq<nat>)
    requires from <= |feed|
    ensures PositionsRead(feed, cursor, from, at) && AllCopied(feed, NewSales(Identified(feed[from..]), cursor), at)
    decreases |feed| - from
  {
    if from == |feed| {
      at := [];
      NothingRead(feed, cursor, from);
    } else {
      NextEntry(feed, from);
      var e, rest := feed[from], Identified(feed[from + 1..]);
      if cursor.Some? && e.id == cursor {
        at := [];
        NothingRead(feed, cursor, from);
        NewSalesStep(SaleIn(e), rest, cursor);
      } else {
        at := ReadingFrom(feed, cursor, from + 1);
        PositionsFurther(feed, cursor, from, at);
        if e.id.Some? {
          NewSalesStep(SaleIn(e), rest, cursor);
          CopiedOneMore(feed, NewSales(rest, cursor), at, from, SaleIn(e));
          at := [from] + at;
        }
      }
    }
  }

  /** What a sync reads, entry by entry of the listed feed. */
  lemma ReadingMeans(feed: seq<FeedEntry>, cursor: Option<nat>) returns (at: seq<nat>)
    ensures ReadsAt(feed, cursor, NewSales(Identified(feed), cursor), at)
  {
    at := ReadingFrom(feed, cursor, 0);
    assert feed[0..] == feed;
  }

  /** The cents of the entries at these positions. */
  ghost function CentsAt(feed: seq<FeedEntry>, at: seq<nat>): int
    requires forall k | 0 <= k < |at| :: at[k] < |feed|
  {
    if at == [] then 0 else feed[at[0]].cents + CentsAt(feed, at[1..])
  }

  lemma {:induction false} CentsOfRead(feed: seq<FeedEntry>, sales: seq<FeedSale>, at: seq<nat>)
    requires AllCopied(feed, sales, at)
    ensures FeedCents(sales) == CentsAt(feed, at)
  {
    if at != [] {
      CentsOfRead(feed, sales[1..], at[1..]);
    }
  }

  /** One sync of a linked launch: its metrics grow by the number and the cents of the entries that have an
      id and stand before its cursor, and the newest of them becomes the cursor. */
  lemma SyncMeans(l: LaunchRecord, feeds: map<nat, seq<FeedEntry>>, now: int, feed: seq<FeedEntry>) returns (at: seq<nat>)
    requires l.product.Some? && l.product.value in feeds && feeds[l.product.value] == feed
    ensures ReadsAt(feed, l.cursor, NewFor(l, feeds), at)
    ensures var l' := SyncedLaunch(l, feeds, now);
            && l'.product == l.product && l'.lastSync == Some(now)
            && l'.sales == l.sales + |at| && l'.cents == l.cents + CentsAt(feed, at)
            && l'.cursor == if at == [] then l.cursor else feed[at[0]].id
  {
    at := ReadingMeans(feed, l.cursor);
    CentsOfRead(feed, NewFor(l, feeds), at);
  }

  /** Launches are read newest first. */
  lemma {:induction false} NewestLaunchFirst(launches: seq<LaunchRecord>, feeds: map<nat, seq<FeedEntry>>, l: LaunchRecord, i: nat)
    requires i <= |launches|
    ensures AllNew(launches + [l], feeds, i) == NewFor(l, feeds) + AllNew(launches, feeds, i)
    decreases |launches| - i
  {
    var all, newest := launches + [l], NewFor(l, feeds);
    if i == |launches| {
      assert AllNew(all, feeds, i + 1) == [] && all[i] == l;
      assert [] + newest == newest && newest + [] == newest;
    } else {
      NewestLaunchFirst(launches, feeds, l, i + 1);
      var later, mine := AllNew(launches, feeds, i + 1), NewFor(launches[i], feeds);
      assert all[i] == launches[i];
      Regroup(newest, later, mine);
    }
  }

  lemma {:induction false} LinkedOneMore(launches: seq<LaunchRecord>, l: LaunchRecord, i: nat)
    requires i <= |launches|
    ensures LinkedFrom(launches + [l], i) == LinkedFrom(launches, i) + if l.product == None then 0 else 1
    decreases |launches| - i
  {
    if i < |launches| {
      LinkedOneMore(launches, l, i + 1);
    }
  }

  // ----- One launch against its growing feed -----

  datatype Event = Arrives(entry: FeedEntry) | Sync(now: int)

  /** The launch, its feed, the feed at the last sync, and every sale handed on so far. */
  datatype Track = Track(launch: LaunchRecord, feed: seq<FeedEntry>, seen: seq<FeedEntry>, counted: seq<FeedSale>)

  function Step(t: Track, e: Event): Track {
    match e
    case Arrives(entry) => t.(feed := [entry] + t.feed)
    case Sync(now) =>
      Track(Synced(t.launch, Identified(t.feed), now), t.feed, t.feed,
            t.counted + NewSales(Identified(t.feed), t.launch.cursor))
  }

  function Run(t: Track, events: seq<Event>): Track {
    if events == [] then t else Step(Run(t, events[..|events| - 1]), events[|events| - 1])
  }

  /** No id is listed twice. */
  ghost predicate DistinctEntries(feed: seq<FeedEntry>) {
    forall i, j | 0 <= i < j < |feed| && feed[i].id.Some? :: feed[i].id != feed[j].id
  }

  /** How many entries have an id, their cents, and the newest of their ids. */
  function EntryCount(feed: seq<FeedEntry>): nat {
    if feed == [] then 0 else (if feed[0].id.Some? then 1 else 0) + EntryCount(feed[1..])
  }

  function EntryCents(feed: seq<FeedEntry>): int {
    if feed == [] then 0 else (if feed[0].id.Some? then feed[0].cents else 0) + EntryCents(feed[1..])
  }

  function NewestId(feed: seq<FeedEntry>): Option<nat> {
    if feed == [] then None else if feed[0].id.Some? then feed[0].id else NewestId(feed[1..])
  }

  /** Exactly one of the sales has the entry's id, cents, tracking and time. */
  ghost predicate HandedOnOnce(counted: seq<FeedSale>, e: FeedEntry) {
    e.id.Some? ==> multiset(counted)[FeedSale(e.id.value, e.cents, e.tracking, e.soldAt)] == 1
  }

  /** The metrics have grown from `start` by exactly the entries seen that have an id, each handed on once. */
  ghost predicate CountedOnce(start: LaunchRecord, t: Track) {
    && t.launch.sales == start.sales + EntryCount(t.seen)
    && t.launch.cents == start.cents + EntryCents(t.seen)
    && t.launch.cursor == NewestId(t.seen)
    && |t.counted| == EntryCount(t.seen)
    && (forall i | 0 <= i < |t.seen| :: HandedOnOnce(t.counted, t.seen[i]))
  }

  /** The same in terms of the identified sales, with the feed still ending in what was seen. */
  ghost predicate Tracked(start: LaunchRecord, t: Track) {
    && t.launch.sales == start.sales + |Identified(t.seen)|
    && t.launch.cents == start.cents + FeedCents(Identified(t.seen))
    && t.launch.cursor == HeadId(Identified(t.seen))
    && multiset(t.counted) == multiset(Identified(t.seen))
    && |t.seen| <= |t.feed| && t.feed[|t.feed| - |t.seen|..] == t.seen
  }

  lemma {:induction false} IdentifiedConcat(a: seq<FeedEntry>, b: seq<FeedEntry>)
    ensures Identified(a + b) == Identified(a) + Identified(b)
  {
    if a == [] {
      assert a + b == b;
    } else {
      var all, rest := a + b, a[1..];
      IdentifiedConcat(rest, b);
      assert all[1..] == rest + b && all[0] == a[0];
      IdentifiedStep(a);
      IdentifiedStep(all);
      if a[0].id.Some? {
        Regroup([SaleIn(a[0])], Identified(rest), Identified(b));
      }
    }
  }

  lemma IdentifiedStep(feed: seq<FeedEntry>)
    requires feed != []
    ensures Identified(feed) ==
              if feed[0].id.Some? then [SaleIn(feed[0])] + Identified(feed[1..]) else Identified(feed[1..])
  {
    assert [] + Identified(feed[1..]) == Identified(feed[1..]);
  }

  lemma {:induction false} IdentifiedMeans(feed: seq<FeedEntry>)
    ensures |Identified(feed)| == EntryCount(feed) && FeedCents(Identified(feed)) == EntryCents(feed)
    ensures HeadId(Identified(feed)) == NewestId(feed)
    ensures forall s :: s in Identified(feed)
              <==> exists i | 0 <= i < |feed| :: feed[i] == FeedEntry(Some(s.id), s.cents, s.tracking, s.soldAt)
  {
    if feed != [] {
      var rest := feed[1..];
      IdentifiedMeans(rest);
      IdentifiedStep(feed);
      if feed[0].id.Some? {
        assert Identified(feed)[1..] == Identified(rest);
      }
      forall s ensures s in Identified(feed)
                  <==> exists i | 0 <= i < |feed| :: feed[i] == FeedEntry(Some(s.id), s.cents, s.tracking, s.soldAt)
      {
        var e := FeedEntry(Some(s.id), s.cents, s.tracking, s.soldAt);
        assert e in feed <==> feed[0] == e || e in rest;
        assert e in rest <==> s in Identified(rest);
      }
    }
  }

  lemma {:induction false} IdentifiedDistinct(feed: seq<FeedEntry>)
    requires DistinctEntries(feed)
    ensures DistinctIds(Identified(feed))
  {
    if feed != [] {
      var rest := feed[1..];
      forall i, j | 0 <= i < j < |rest| && rest[i].id.Some? ensures rest[i].id != rest[j].id {
        assert feed[i + 1].id != feed[j + 1].id;
      }
      IdentifiedDistinct(rest);
      IdentifiedMeans(rest);
      forall s | s in Identified(rest) && feed[0].id.Some? ensures Some(s.id) != feed[0].id {
        var i :| 0 <= i < |rest| && rest[i] == FeedEntry(Some(s.id), s.cents, s.tracking, s.soldAt);
        assert feed[0].id != feed[i + 1].id;
      }
    }
  }

  lemma {:induction false} DistinctOnce(sales: seq<FeedSale>, s: FeedSale)
    requires DistinctIds(sales) && s in sales
    ensures multiset(sales)[s] == 1
  {
    var rest := sales[1..];
    assert sales == [sales[0]] + rest;
    forall i, j | 0 <= i < j < |rest| ensures rest[i].id != rest[j].id {
      assert sales[i + 1].id != sales[j + 1].id;
    }
    if s in rest {
      DistinctOnce(rest, s);
      var i :| 0 <= i < |rest| && rest[i] == s;
      assert sales[0].id != sales[i + 1].id;
    }
  }

  lemma SuffixDistinct(feed: seq<FeedEntry>, from: nat)
    requires DistinctEntries(feed) && from <= |feed|
    ensures DistinctEntries(feed[from..])
  {
    var rest := feed[from..];
    forall i, j | 0 <= i < j < |rest| && rest[i].id.Some? ensures rest[i].id != rest[j].id {
      assert rest[i] == feed[i + from] && rest[j] == feed[j + from];
    }
  }

  lemma TrackedMeansCountedOnce(start: LaunchRecord, t: Track)
    requires Tracked(start, t) && DistinctEntries(t.feed)
    ensures CountedOnce(start, t)
  {
    IdentifiedMeans(t.seen);
    assert |t.counted| == |multiset(t.counted)| == |Identified(t.seen)|;
    SuffixDistinct(t.feed, |t.feed| - |t.seen|);
    IdentifiedDistinct(t.seen);
    forall i | 0 <= i < |t.seen| ensures HandedOnOnce(t.counted, t.seen[i]) {
      var e := t.seen[i];
      if e.id.Some? {
        DistinctOnce(Identified(t.seen), FeedSale(e.id.value, e.cents, e.tracking, e.soldAt));
      }
    }
  }

  ghost predicate DistinctIds(feed: seq<FeedSale>) {
    forall i, j | 0 <= i < j < |feed| :: feed[i].id != feed[j].id
  }

  function HeadId(feed: seq<FeedSale>): Option<nat> {
    if feed == [] then None else Some(feed[0].id)
  }

  /** Reading stops exactly at what was seen before. */
  lemma {:induction false} NewSalesAreFresh(recent: seq<FeedSale>, seen: seq<FeedSale>)
    requires DistinctIds(recent + seen)
    ensures NewSales(recent + seen, HeadId(seen)) == recent
  {
    if recent == [] {
      assert recent + seen == seen;
    } else {
      var feed := recent + seen;
      assert feed[1..] == recent[1..] + seen;
      forall i, j | 0 <= i < j < |feed[1..]| ensures feed[1..][i].id != feed[1..][j].id {
        assert feed[i + 1].id != feed[j + 1].id;
      }
      NewSalesAreFresh(recent[1..], seen);
      assert seen != [] ==> feed[0].id != feed[|recent|].id;
    }
  }

  /** A sync reads exactly the sales listed since the last one. */
  lemma SyncReadsRecent(feed: seq<FeedEntry>, recent: seq<FeedEntry>, seen: seq<FeedEntry>)
    requires feed == recent + seen && DistinctEntries(feed)
    ensures Identified(feed) == Identified(recent) + Identified(seen)
    ensures NewSales(Identified(feed), HeadId(Identified(seen))) == Identified(recent)
  {
    IdentifiedConcat(recent, seen);
    IdentifiedDistinct(feed);
    NewSalesAreFresh(Identified(recent), Identified(seen));
  }

  lemma SyncCountsFresh(start: LaunchRecord, t: Track, now: int)
    requires Tracked(start, t) && DistinctEntries(t.feed)
    ensures Tracked(start, Step(t, Sync(now)))
  {
    var recent := t.feed[..|t.feed| - |t.seen|];
    SyncReadsRecent(t.feed, recent, t.seen);
    CentsConcat(Identified(recent), Identified(t.seen));
    MoreCounted(t.counted, Identified(recent), Identified(t.seen));
    assert t.feed[0..] == t.feed;
  }

  lemma MoreCounted(counted: seq<FeedSale>, recent: seq<FeedSale>, seen: seq<FeedSale>)
    requires multiset(counted) == multiset(seen)
    ensures multiset(counted + recent) == multiset(recent + seen)
  {
  }

  lemma {:induction false} SyncsTrack(start: LaunchRecord, feed: seq<FeedEntry>, events: seq<Event>)
    requires start.cursor.None?
    requires DistinctEntries(Run(Track(start, feed, [], []), events).feed)
    ensures Tracked(start, Run(Track(start, feed, [], []), events))
  {
    var initial := Track(start, feed, [], []);
    if events != [] {
      var t, e := Run(initial, events[..|events| - 1]), events[|events| - 1];
      if e.Arrives? {
        EarlierDistinct(e.entry, t.feed);
      }
      SyncsTrack(start, feed, events[..|events| - 1]);
      if e.Sync? {
        SyncCountsFresh(start, t, e.now);
      } else {
        ArrivalKeepsTracked(start, t, e.entry);
      }
    }
  }

  lemma EarlierDistinct(e: FeedEntry, feed: seq<FeedEntry>)
    requires DistinctEntries([e] + feed)
    ensures DistinctEntries(feed)
  {
    var all := [e] + feed;
    forall i, j | 0 <= i < j < |feed| && feed[i].id.Some? ensures feed[i].id != feed[j].id {
      assert all[i + 1] == feed[i] && all[j + 1] == feed[j];
    }
  }

  lemma ArrivalKeepsTracked(start: LaunchRecord, t: Track, e: FeedEntry)
    requires Tracked(start, t)
    ensures Tracked(start, Step(t, Arrives(e)))
  {
    assert ([e] + t.feed)[|t.feed| + 1 - |t.seen|..] == t.feed[|t.feed| - |t.seen|..];
  }

  /** If the feed only grows at its head and never repeats an id, then after any run of arrivals and
      syncs every entry with an id in the feed at the last sync has been counted, to the cent, and handed
      on exactly once. */
  lemma SalesCountedExactlyOnce(start: LaunchRecord, feed: seq<FeedEntry>, events: seq<Event>)
    requires start.cursor.None?
    requires DistinctEntries(Run(Track(start, feed, [], []), events).feed)
    ensures CountedOnce(start, Run(Track(start, feed, [], []), events))
  {
    SyncsTrack(start, feed, events);
    TrackedMeansCountedOnce(start, Run(Track(start, feed, [], []), events));
  }

  /** A second sync with no new sale changes neither metrics nor cursor. */
  lemma SyncIsIdempotent(l: LaunchRecord, feed: seq<FeedSale>, now: int, later: int)
    ensures Synced(Synced(l, feed, now), feed, later) == Synced(l, feed, now).(lastSync := Some(later))
  {
    if NewSales(feed, l.cursor) != [] {
      assert NewSales(feed, HeadId(feed)) == [];
    }
  }

  /** When the feed drops sales, a sync reads exactly the recent ones if and only if the sale at the
      cursor is still listed, or no sale counted before is. */
  lemma LostCursorIff(recent: seq<FeedSale>, kept: seq<FeedSale>, cursor: nat)
    requires DistinctIds(recent + kept) && forall s | s in recent :: s.id != cursor
    requires forall i | 0 <= i < |kept| :: kept[i].id == cursor ==> i == 0
    ensures NewSales(recent + kept, Some(cursor)) == recent
       <==> kept == [] || exists s | s in kept :: s.id == cursor
    ensures (forall s | s in kept :: s.id != cursor) ==> NewSales(recent + kept, Some(cursor)) == recent + kept
  {
    if s :| s in kept && s.id == cursor {
      assert kept[0].id == cursor;
      NewSalesAreFresh(recent, kept);
    } else {
      NothingStops(recent + kept, cursor);
    }
  }

  lemma {:induction false} NothingStops(feed: seq<FeedSale>, cursor: nat)
    requires forall s | s in feed :: s.id != cursor
    ensures NewSales(feed, Some(cursor)) == feed
  {
    if feed != [] {
      forall s | s in feed[1..] ensures s.id != cursor {
        assert s in feed;
      }
      assert feed[0] in feed;
      NothingStops(feed[1..], cursor);
    }
  }
}
