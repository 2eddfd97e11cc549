// Attributing sales to trackings and summing them up, in integer cents.
module RevenueAttribution {
  import opened Common

  datatype Channel = Reddit | UnknownChannel

  /** A timestamp that is missing, unreadable, or a point in time. */
  datatype When = Missing | Unreadable | At(t: int)

  /** Proposals and products share one space of ids. */
  datatype Tracking = Tracking(proposal: nat, product: nat, subreddit: Option<nat>, post: Option<nat>,
                               price: Option<int>, createdAt: When)

  datatype SaleId = Given(id: nat) | Generated(tracking: nat, number: nat)

  datatype Sale = Sale(id: SaleId, product: nat, cents: int, soldAt: When, channel: Channel,
                       subreddit: Option<nat>, post: Option<nat>)

  datatype Revenue = Revenue(items: map<nat, Tracking>, sales: seq<Sale>)

  const HOUR := 3600

  // ----- Recording -----

  /** Round to the nearest integer, ties to even. */
  function RoundDiv(delta: int, count: nat): (r: int)
    requires count >= 1
    ensures -(count as int) <= 2 * (count * r - delta) <= count
  {
    var q, rest := delta / count, delta % count;
    assert count * q + rest == delta;
    if 2 * rest < count || (2 * rest == count && q % 2 == 0) then q
    else
      assert count * (q + 1) == count * q + count;
      q + 1
  }

  function InferChannel(soldAt: When, tracking: Tracking, windowHours: nat): Channel {
    if tracking.createdAt.At? && soldAt.At?
       && tracking.createdAt.t <= soldAt.t <= tracking.createdAt.t + windowHours * HOUR
    then Reddit else UnknownChannel
  }

  function SaleCount(requested: int): nat {
    Max(1, requested)
  }

  datatype SaleRequest = SaleRequest(tracking: nat, count: int, delta: int, saleId: Option<nat>, soldAt: When, now: int)

  /** What the sales of one call have in common. */
  datatype Batch = Batch(tracking: nat, product: nat, channel: Channel, subreddit: Option<nat>, post: Option<nat>,
                         cents: int, saleId: Option<nat>, soldAt: When)

  function BatchOf(t: Tracking, q: SaleRequest, windowHours: nat): Batch {
    var soldAt := if q.soldAt.Missing? then At(q.now) else q.soldAt;
    var channel := InferChannel(soldAt, t, windowHours);
    Batch(q.tracking, t.product, channel, if channel == Reddit then t.subreddit else None,
          if channel == Reddit then t.post else None, RoundDiv(q.delta, SaleCount(q.count)), q.saleId, soldAt)
  }

  /** The sale appended when the log already holds `length` sales. */
  function NewSale(b: Batch, length: nat, index: nat): Sale {
    Sale(if b.saleId.Some? then Given(b.saleId.value) else Generated(b.tracking, length + 1 + index),
         b.product, b.cents, b.soldAt, b.channel, b.subreddit, b.post)
  }

  /** The log grows while it is counted, so each generated number advances by two. */
  function Appended(sales: seq<Sale>, b: Batch, count: nat): seq<Sale> {
    if count == 0 then sales
    else
      var before := Appended(sales, b, count - 1);
      before + [NewSale(b, |before|, count - 1)]
  }

  function Recorded(r: Revenue, q: SaleRequest, windowHours: nat): Revenue {
    if q.tracking !in r.items then r
    else r.(sales := Appended(r.sales, BatchOf(r.items[q.tracking], q, windowHours), SaleCount(q.count)))
  }

  function SumCents(sales: seq<Sale>): int {
    if sales == [] then 0 else SumCents(sales[..|sales| - 1]) + sales[|sales| - 1].cents
  }

  lemma {:induction false} AppendedShape(sales: seq<Sale>, b: Batch, count: nat)
    ensures var after := Appended(sales, b, count);
            && |after| == |sales| + count
            && (forall i | 0 <= i < |sales| :: after[i] == sales[i])
            && (forall i | |sales| <= i < |after| :: after[i] == NewSale(b, i, i - |sales|))
  {
    if count > 0 {
      AppendedShape(sales, b, count - 1);
    }
  }

  lemma {:induction false} AppendedSum(sales: seq<Sale>, b: Batch, count: nat)
    ensures SumCents(Appended(sales, b, count)) == SumCents(sales) + count * b.cents
  {
    if count > 0 {
      AppendedSum(sales, b, count - 1);
      var before, after := Appended(sales, b, count - 1), Appended(sales, b, count);
      assert after[..|after| - 1] == before;
      assert count * b.cents == (count - 1) * b.cents + b.cents;
    }
  }

  /** Splitting a delta over its sales loses or gains at most half a cent per sale, and nothing for one. */
  lemma RevenueIsConserved(r: Revenue, q: SaleRequest, windowHours: nat)
    requires q.tracking in r.items
    ensures var added, count: int := SumCents(Recorded(r, q, windowHours).sales) - SumCents(r.sales), SaleCount(q.count);
            && -count <= 2 * (added - q.delta) <= count
            && (count == 1 ==> added == q.delta)
            && |Recorded(r, q, windowHours).sales| == |r.sales| + count
  {
    var b := BatchOf(r.items[q.tracking], q, windowHours);
    AppendedShape(r.sales, b, SaleCount(q.count));
    AppendedSum(r.sales, b, SaleCount(q.count));
  }

  lemma RecordedKeeps(r: Revenue, q: SaleRequest, windowHours: nat)
    requires q.tracking in r.items
    ensures var r' := Recorded(r, q, windowHours);
            && r'.items == r.items && |r'.sales| == |r.sales| + SaleCount(q.count)
            && (forall i | 0 <= i < |r.sales| :: r'.sales[i] == r.sales[i])
            && (q.saleId.None? ==> forall i | |r.sales| <= i < |r'.sales| ::
                  r'.sales[i].id == Generated(q.tracking, 2 * i + 1 - |r.sales|))
  {
    AppendedShape(r.sales, BatchOf(r.items[q.tracking], q, windowHours), SaleCount(q.count));
  }

  ghost predicate ShareId(sales: seq<Sale>, first: nat, count: nat, second: nat) {
    exists i, j | first <= i < first + count && second <= j < |sales| && i < |sales| :: sales[i].id == sales[j].id
  }

  /** Two calls for one tracking, with any sales recorded between them, generate a common id exactly
      when the log had grown by an even number, no more than twice the first count less two. */
  lemma GeneratedIdsCollideIff(r: Revenue, q: SaleRequest, between: Revenue, q': SaleRequest, windowHours: nat)
    requires q.tracking == q'.tracking && q.tracking in r.items && q.tracking in between.items
    requires q.saleId.None? && q'.saleId.None? && Recorded(r, q, windowHours).sales <= between.sales
    ensures var n, m, count := |r.sales|, |between.sales|, SaleCount(q.count);
            ShareId(Recorded(between, q', windowHours).sales, n, count, m)
            <==> ((m - n) % 2 == 0 && m - n <= 2 * count - 2)
  {
    var sales := Recorded(between, q', windowHours).sales;
    RecordedKeeps(r, q, windowHours);
    RecordedKeeps(between, q', windowHours);
    forall i | |r.sales| <= i < |r.sales| + SaleCount(q.count)
      ensures sales[i].id == Generated(q.tracking, 2 * i + 1 - |r.sales|)
    {
      assert sales[i] == between.sales[i] == Recorded(r, q, windowHours).sales[i];
    }
    CollideIff(sales, q.tracking, |r.sales|, SaleCount(q.count), |between.sales|);
  }

  lemma CollideIff(sales: seq<Sale>, tracking: nat, first: nat, count: nat, second: nat)
    requires first + count <= second < |sales|
    requires forall i | first <= i < first + count :: sales[i].id == Generated(tracking, 2 * i + 1 - first)
    requires forall i | second <= i < |sales| :: sales[i].id == Generated(tracking, 2 * i + 1 - second)
    ensures ShareId(sales, first, count, second) <==> (second - first) % 2 == 0 && second - first <= 2 * count - 2
  {
    if (second - first) % 2 == 0 && second - first <= 2 * count - 2 {
      var i := first + (second - first) / 2;
      assert sales[i].id == sales[second].id;
    }
  }

  // ----- What one call records -----

  /** An exact half of a cent goes to the even side. */
  lemma TiesGoToEven(delta: int, count: nat)
    requires count >= 1
    requires var gap: int := 2 * (count * RoundDiv(delta, count) - delta); gap == count || gap + count == 0
    ensures RoundDiv(delta, count) % 2 == 0
  {
    var q, rest := delta / count, delta % count;
    assert count * q + rest == delta && count * (q + 1) == count * q + count;
  }

  /** Each sale of a call says: the product of its tracking, the given or else the current time, and, when
      that time lies within the window of hours after the tracking was created, the reddit channel with the
      tracking's subreddit and post; otherwise neither channel nor post is known. */
  lemma RecordedSaleMeans(r: Revenue, q: SaleRequest, windowHours: nat, i: nat)
    requires q.tracking in r.items && |r.sales| <= i < |Recorded(r, q, windowHours).sales|
    ensures var t, sale := r.items[q.tracking], Recorded(r, q, windowHours).sales[i];
            var soldAt := if q.soldAt == Missing then At(q.now) else q.soldAt;
            var timely := t.createdAt.At? && soldAt.At? && t.createdAt.t <= soldAt.t
                          && soldAt.t - t.createdAt.t <= 3600 * windowHours;
            && sale.product == t.product && sale.soldAt == soldAt
            && sale.channel == (if timely then Reddit else UnknownChannel)
            && sale.subreddit == (if timely then t.subreddit else None)
            && sale.post == (if timely then t.post else None)
            && (q.saleId.Some? ==> sale.id == Given(q.saleId.value))
  {
    AppendedShape(r.sales, BatchOf(r.items[q.tracking], q, windowHours), SaleCount(q.count));
  }

  /** A call records the requested number of sales, at least one; for an unknown tracking it records none. */
  lemma RecordedCount(r: Revenue, q: SaleRequest, windowHours: nat)
    ensures q.tracking !in r.items ==> Recorded(r, q, windowHours) == r
    ensures q.tracking in r.items ==>
              |Recorded(r, q, windowHours).sales| == |r.sales| + if q.count < 1 then 1 else q.count
  {
    if q.tracking in r.items {
      RecordedKeeps(r, q, windowHours);
    }
  }

  // ----- Buckets -----

  datatype Bucket = Bucket(sales: nat, cents: int)

  function Plus(a: Bucket, b: Bucket): Bucket {
    Bucket(a.sales + b.sales, a.cents + b.cents)
  }

  function At0<K>(m: map<K, Bucket>, k: K): Bucket {
    if k in m then m[k] else Bucket(0, 0)
  }

  /** Groups sales by an optional key; sales without a key go nowhere. */
  function Grouped<K>(sales: seq<Sale>, key: Sale -> Option<K>): map<K, Bucket> {
    if sales == [] then map[]
    else
      var m, last := Grouped(sales[..|sales| - 1], key), sales[|sales| - 1];
      if key(last).None? then m
      else m[key(last).value := Plus(At0(m, key(last).value), Bucket(1, last.cents))]
  }

  /** The count and cents of the sales with this key. */
  ghost function Having<K>(sales: seq<Sale>, key: Sale -> Option<K>, k: K): Bucket {
    if sales == [] then Bucket(0, 0)
    else
      var rest, last := Having(sales[..|sales| - 1], key, k), sales[|sales| - 1];
      if key(last) == Some(k) then Plus(rest, Bucket(1, last.cents)) else rest
  }

  /** The count and cents of the sales that have any key. */
  function Keyed<K>(sales: seq<Sale>, key: Sale -> Option<K>): Bucket {
    if sales == [] then Bucket(0, 0)
    else
      var rest, last := Keyed(sales[..|sales| - 1], key), sales[|sales| - 1];
      if key(last).Some? then Plus(rest, Bucket(1, last.cents)) else rest
  }

  function Totals(sales: seq<Sale>): Bucket {
    Bucket(|sales|, SumCents(sales))
  }

  /** The sum over all buckets of a map. */
  ghost function BucketSum<K(!new)>(m: map<K, Bucket>): Bucket
    decreases |m|
  {
    if m == map[] then Bucket(0, 0)
    else
      var k :| k in m;
      assert |m - {k}| < |m|;
      Plus(m[k], BucketSum(m - {k}))
  }

  lemma {:induction false} SumWithout<K(!new)>(m: map<K, Bucket>, k: K)
    requires k in m
    ensures BucketSum(m) == Plus(m[k], BucketSum(m - {k}))
    decreases |m|
  {
    var c :| c in m && BucketSum(m) == Plus(m[c], BucketSum(m - {c}));
    if c != k {
      assert |m - {c}| < |m| && |m - {k}| < |m|;
      SumWithout(m - {c}, k);
      SumWithout(m - {k}, c);
      var rest := m - {c} - {k};
      assert rest == m - {k} - {c};
      assert BucketSum(m - {c}) == Plus(m[k], BucketSum(rest));
      assert BucketSum(m - {k}) == Plus(m[c], BucketSum(rest));
      assert BucketSum(m) == Plus(m[c], Plus(m[k], BucketSum(rest)));
      assert Plus(m[c], Plus(m[k], BucketSum(rest))) == Plus(m[k], Plus(m[c], BucketSum(rest)));
    }
  }

  lemma SumAfterBump<K(!new)>(m: map<K, Bucket>, k: K, b: Bucket)
    ensures BucketSum(m[k := Plus(At0(m, k), b)]) == Plus(BucketSum(m), b)
  {
    var m' := m[k := Plus(At0(m, k), b)];
    SumWithout(m', k);
    SameWithout(m, m', k);
    if k in m {
      SumWithout(m, k);
    } else {
      assert m - {k} == m && At0(m, k) == Bucket(0, 0);
    }
    PlusRegroups(At0(m, k), b, BucketSum(m - {k}));
  }

  lemma PlusRegroups(a: Bucket, b: Bucket, c: Bucket)
    ensures Plus(Plus(a, b), c) == Plus(Plus(a, c), b)
  {
  }

  lemma SameWithout<K(!new)>(m: map<K, Bucket>, m': map<K, Bucket>, k: K)
    requires m'.Keys == m.Keys + {k} && forall x | x in m && x != k :: m'[x] == m[x]
    ensures m' - {k} == m - {k}
  {
  }

  /** Buckets say what they should, and together hold exactly the keyed sales. */
  lemma {:induction false} GroupingConserves<K(!new)>(sales: seq<Sale>, key: Sale -> Option<K>)
    ensures forall k :: At0(Grouped(sales, key), k) == Having(sales, key, k)
    ensures BucketSum(Grouped(sales, key)) == Keyed(sales, key)
  {
    if sales != [] {
      var last := sales[|sales| - 1];
      GroupingConserves(sales[..|sales| - 1], key);
      if key(last).Some? {
        SumAfterBump(Grouped(sales[..|sales| - 1], key), key(last).value, Bucket(1, last.cents));
      }
    }
  }

  function ProductKey(s: Sale): Option<nat> {
    Some(s.product)
  }

  function ChannelKey(s: Sale): Option<Channel> {
    Some(s.channel)
  }

  function SubredditKey(s: Sale): Option<nat> {
    s.subreddit
  }

  lemma {:induction false} AllKeyed<K>(sales: seq<Sale>, key: Sale -> Option<K>)
    requires forall s :: key(s).Some?
    ensures Keyed(sales, key) == Totals(sales)
  {
    if sales != [] {
      AllKeyed(sales[..|sales| - 1], key);
    }
  }

  ghost predicate SubredditMeansReddit(sales: seq<Sale>) {
    forall s | s in sales :: s.subreddit.Some? ==> s.channel == Reddit
  }

  lemma {:induction false} SubredditsWithinReddit(sales: seq<Sale>)
    requires SubredditMeansReddit(sales)
    ensures Keyed(sales, SubredditKey).sales <= Having(sales, ChannelKey, Reddit).sales
  {
    if sales != [] {
      forall s | s in sales[..|sales| - 1] ensures s in sales {
      }
      SubredditsWithinReddit(sales[..|sales| - 1]);
      assert sales[|sales| - 1] in sales;
    }
  }

  /** Totals are the sale count and cent sum; channel and product buckets add up to them; subreddit
      buckets stay within the reddit channel. */
  lemma SummaryConserves(sales: seq<Sale>)
    requires SubredditMeansReddit(sales)
    ensures BucketSum(Grouped(sales, ProductKey)) == Totals(sales)
    ensures BucketSum(Grouped(sales, ChannelKey)) == Totals(sales)
    ensures BucketSum(Grouped(sales, SubredditKey)).sales <= At0(Grouped(sales, ChannelKey), Reddit).sales
  {
    GroupingConserves(sales, ProductKey);
    GroupingConserves(sales, ChannelKey);
    GroupingConserves(sales, SubredditKey);
    AllKeyed(sales, ProductKey);
    AllKeyed(sales, ChannelKey);
    SubredditsWithinReddit(sales);
  }

  // ----- Runs -----

  /** What is not given is `None` (or a missing time). */
  datatype Upsert = Upsert(id: nat, proposal: nat, product: Option<nat>, subreddit: Option<nat>, post: Option<nat>,
                           price: Option<int>, createdAt: When, now: int)

  datatype Event = TrackingUpserted(upsert: Upsert) | SaleRecorded(request: SaleRequest)

  function Or<T>(given: Option<T>, earlier: Option<T>): Option<T> {
    if given.Some? then given else earlier
  }

  /** A new tracking sells its proposal unless a product is given. */
  function NewTracking(u: Upsert): Tracking {
    Tracking(u.proposal, if u.product.Some? then u.product.value else u.proposal, u.subreddit, u.post, u.price,
             if u.createdAt.Missing? then At(u.now) else u.createdAt)
  }

  /** A later upsert replaces the proposal and what it gives, and keeps the rest. */
  function Replaced(earlier: Tracking, u: Upsert): Tracking {
    Tracking(u.proposal, if u.product.Some? then u.product.value else earlier.product, Or(u.subreddit, earlier.subreddit),
             Or(u.post, earlier.post), Or(u.price, earlier.price),
             if u.createdAt.Missing? then earlier.createdAt else u.createdAt)
  }

  function Upserted(r: Revenue, u: Upsert): Revenue {
    r.(items := r.items[u.id := if u.id in r.items then Replaced(r.items[u.id], u) else NewTracking(u)])
  }

  function Step(r: Revenue, e: Event, windowHours: nat): Revenue {
    if e.TrackingUpserted? then Upserted(r, e.upsert) else Recorded(r, e.request, windowHours)
  }

  function RunFrom(r: Revenue, events: seq<Event>, windowHours: nat): Revenue {
    if events == [] then r
    else Step(RunFrom(r, events[..|events| - 1], windowHours), events[|events| - 1], windowHours)
  }

  function Run(events: seq<Event>, windowHours: nat): Revenue {
    RunFrom(Revenue(map[], []), events, windowHours)
  }

  lemma {:induction false} SubredditMeansRedditOverRuns(events: seq<Event>, windowHours: nat)
    ensures SubredditMeansReddit(Run(events, windowHours).sales)
  {
    if events != [] {
      var before, e := Run(events[..|events| - 1], windowHours), events[|events| - 1];
      SubredditMeansRedditOverRuns(events[..|events| - 1], windowHours);
      if e.SaleRecorded? && e.request.tracking in before.items {
        RecordingKeepsReddit(before, e.request, windowHours);
      }
    }
  }

  lemma RecordingKeepsReddit(r: Revenue, q: SaleRequest, windowHours: nat)
    requires SubredditMeansReddit(r.sales) && q.tracking in r.items
    ensures SubredditMeansReddit(Recorded(r, q, windowHours).sales)
  {
    AppendedShape(r.sales, BatchOf(r.items[q.tracking], q, windowHours), SaleCount(q.count));
    var after := Recorded(r, q, windowHours).sales;
    forall s | s in after ensures s.subreddit.Some? ==> s.channel == Reddit {
      var i :| 0 <= i < |after| && after[i] == s;
      if i < |r.sales| {
        assert r.sales[i] in r.sales;
      }
    }
  }

  datatype Field = ProductField | SubredditField | PostField | PriceField | CreationField

  predicate Gives(u: Upsert, field: Field) {
    match field
    case ProductField => u.product.Some?
    case SubredditField => u.subreddit.Some?
    case PostField => u.post.Some?
    case PriceField => u.price.Some?
    case CreationField => !u.createdAt.Missing?
  }

  predicate SameField(a: Tracking, b: Tracking, field: Field) {
    match field
    case ProductField => a.product == b.product
    case SubredditField => a.subreddit == b.subreddit
    case PostField => a.post == b.post
    case PriceField => a.price == b.price
    case CreationField => a.createdAt == b.createdAt
  }

  /** A new tracking sells its own proposal and was created now, unless the upsert says otherwise; a later
      upsert replaces the proposal and every field it gives. */
  lemma UpsertMeans(r: Revenue, u: Upsert)
    ensures var r', t := Upserted(r, u), Upserted(r, u).items[u.id];
            && r'.sales == r.sales
            && t.proposal == u.proposal
            && (u.product.Some? ==> t.product == u.product.value)
            && (u.product.None? && u.id !in r.items ==> t.product == u.proposal)
            && (u.subreddit.Some? || u.id !in r.items ==> t.subreddit == u.subreddit)
            && (u.post.Some? || u.id !in r.items ==> t.post == u.post)
            && (u.price.Some? || u.id !in r.items ==> t.price == u.price)
            && (u.createdAt != Missing ==> t.createdAt == u.createdAt)
            && (u.createdAt == Missing && u.id !in r.items ==> t.createdAt == At(u.now))
    ensures forall id | id != u.id ::
              (id in Upserted(r, u).items <==> id in r.items)
              && (id in r.items ==> Upserted(r, u).items[id] == r.items[id])
  {
  }

  /** Over every run, a known tracking stays known and keeps a field until an upsert gives it anew. */
  lemma {:induction false} TrackingKeepsField(r: Revenue, events: seq<Event>, windowHours: nat, id: nat, field: Field)
    requires id in r.items
    requires forall e | e in events && e.TrackingUpserted? && e.upsert.id == id :: !Gives(e.upsert, field)
    ensures var items := RunFrom(r, events, windowHours).items; id in items && SameField(items[id], r.items[id], field)
  {
    if events != [] {
      TrackingKeepsField(r, events[..|events| - 1], windowHours, id, field);
      assert events[|events| - 1] in events;
    }
  }

  ghost predicate OneAtATime(events: seq<Event>) {
    forall e | e in events && e.SaleRecorded? && e.request.saleId.None? :: SaleCount(e.request.count) == 1
  }

  /** If every call that generates ids asks for one sale, a generated number is the sale's place in the
      log, so no generated id ever repeats. */
  lemma {:induction false} SingleSalesNeverCollide(events: seq<Event>, windowHours: nat)
    requires OneAtATime(events)
    ensures var sales := Run(events, windowHours).sales;
            && (forall i | 0 <= i < |sales| && sales[i].id.Generated? :: sales[i].id.number == i + 1)
            && (forall i, j | 0 <= i < j < |sales| && sales[i].id.Generated? :: sales[i].id != sales[j].id)
  {
    if events != [] {
      var n := |events| - 1;
      var before, e := Run(events[..n], windowHours), events[n];
      assert e in events;
      SingleSalesNeverCollide(events[..n], windowHours);
      if e.SaleRecorded? && e.request.tracking in before.items {
        AppendedShape(before.sales, BatchOf(before.items[e.request.tracking], e.request, windowHours),
                      SaleCount(e.request.count));
      }
    }
  }

  lemma RunThen(events: seq<Event>, e: Event, windowHours: nat)
    ensures Run(events + [e], windowHours) == Step(Run(events, windowHours), e, windowHours)
  {
    assert (events + [e])[..|events|] == events;
  }

  /** Two calls for two sales each: the second sale and the third get the same id. */
  lemma GeneratedIdsRepeat(u: Upsert, now: int, windowHours: nat)
    ensures var q := SaleRequest(u.id, 2, 0, None, Missing, now);
            var sales := Run([TrackingUpserted(u)] + [SaleRecorded(q)] + [SaleRecorded(q)], windowHours).sales;
            |sales| == 4 && sales[1].id == sales[2].id == Generated(u.id, 3)
  {
    var q := SaleRequest(u.id, 2, 0, None, Missing, now);
    var known := [TrackingUpserted(u)];
    assert [] + known == known;
    RunThen([], TrackingUpserted(u), windowHours);
    RunThen(known, SaleRecorded(q), windowHours);
    RunThen(known + [SaleRecorded(q)], SaleRecorded(q), windowHours);
    var r := Run(known, windowHours);
    RecordedKeeps(r, q, windowHours);
    RecordedKeeps(Recorded(r, q, windowHours), q, windowHours);
  }

  /** The sales at these positions, counted and summed. */
  ghost function CountedAt(sales: seq<Sale>, picked: set<nat>, n: nat): Bucket
    requires n <= |sales|
  {
    if n == 0 then Bucket(0, 0)
    else
      var rest := CountedAt(sales, picked, n - 1);
      if n - 1 in picked then Bucket(rest.sales + 1, rest.cents + sales[n - 1].cents) else rest
  }

  lemma {:induction false} HavingIsCounted<K>(sales: seq<Sale>, key: Sale -> Option<K>, k: K, picked: set<nat>, n: nat)
    requires n <= |sales| && forall i | 0 <= i < n :: i in picked <==> key(sales[i]) == Some(k)
    ensures Having(sales[..n], key, k) == CountedAt(sales, picked, n)
  {
    if n > 0 {
      HavingIsCounted(sales, key, k, picked, n - 1);
      assert sales[..n][..n - 1] == sales[..n - 1];
    }
  }

  /** Each bucket of the summary holds the number and cents of exactly the sales of its product, of its
      channel, or attributed to its subreddit. */
  lemma BucketsMean(sales: seq<Sale>, product: nat, channel: Channel, subreddit: nat)
    ensures At0(Grouped(sales, ProductKey), product)
         == CountedAt(sales, set i: nat | i < |sales| && sales[i].product == product, |sales|)
    ensures At0(Grouped(sales, ChannelKey), channel)
         == CountedAt(sales, set i: nat | i < |sales| && sales[i].channel == channel, |sales|)
    ensures At0(Grouped(sales, SubredditKey), subreddit)
         == CountedAt(sales, set i: nat | i < |sales| && sales[i].subreddit == Some(subreddit), |sales|)
  {
    assert sales[..|sales|] == sales;
    GroupingConserves(sales, ProductKey);
    GroupingConserves(sales, ChannelKey);
    GroupingConserves(sales, SubredditKey);
    HavingIsCounted(sales, ProductKey, product, set i: nat | i < |sales| && sales[i].product == product, |sales|);
    HavingIsCounted(sales, ChannelKey, channel, set i: nat | i < |sales| && sales[i].channel == channel, |sales|);
    HavingIsCounted(sales, SubredditKey, subreddit, set i: nat | i < |sales| && sales[i].subreddit == Some(subreddit), |sales|);
  }

  /** The summary of every reachable store conserves sales and cents. */
  lemma SummaryConservesOverRuns(events: seq<Event>, windowHours: nat)
    ensures var sales := Run(events, windowHours).sales;
            && BucketSum(Grouped(sales, ProductKey)) == Totals(sales)
            && BucketSum(Grouped(sales, ChannelKey)) == Totals(sales)
            && BucketSum(Grouped(sales, SubredditKey)).sales <= At0(Grouped(sales, ChannelKey), Reddit).sales
  {
    SubredditMeansRedditOverRuns(events, windowHours);
    SummaryConserves(Run(events, windowHours).sales);
  }

  // ----- The store as an object -----

  class RevenueAttributionStore {
    var items: map<nat, Tracking>
    var sales: seq<Sale>
    const windowHours: nat

    constructor (windowHours: int)
      ensures items == map[] && sales == [] && this.windowHours == Max(1, windowHours)
    {
      this.windowHours := Max(1, windowHours);
      items, sales := map[], [];
    }

    ghost function State(): Revenue
      reads this
    {
      Revenue(items, sales)
    }

    method UpsertTracking(u: Upsert) returns (record: Tracking)
      modifies this`items
      ensures State() == Step(old(State()), TrackingUpserted(u), windowHours)
      ensures u.id in items && record == items[u.id]
    {
      var product, subreddit, post, price, createdAt := u.proposal, u.subreddit, u.post, u.price, u.createdAt;
      if u.id in items {
        var existing := items[u.id];
        product := existing.product;
        if subreddit.None? {
          subreddit := existing.subreddit;
        }
        if post.None? {
          post := existing.post;
        }
        if price.None? {
          price := existing.price;
        }
        if createdAt.Missing? {
          createdAt := existing.createdAt;
        }
      } else if createdAt.Missing? {
        createdAt := At(u.now);
      }
      if u.product.Some? {
        product := u.product.value;
      }
      record := Tracking(u.proposal, product, subreddit, post, price, createdAt);
      items := items[u.id := record];
    }

    method RecordSale(q: SaleRequest) returns (attributed: Option<Tracking>)
      modifies this`sales
      ensures State() == Recorded(old(State()), q, windowHours)
      ensures attributed == if q.tracking in items then Some(items[q.tracking]) else None
    {
      if q.tracking !in items {
        return None;
      }
      var current, count := items[q.tracking], SaleCount(q.count);
      var batch := BatchOf(current, q, windowHours);
      for index := 0 to count
        invariant sales == Appended(old(sales), batch, index)
      {
        sales := sales + [NewSale(batch, |sales|, index)];
      }
      attributed := Some(current);
    }

    method Summary() returns (totals: Bucket, byProduct: map<nat, Bucket>, byChannel: map<Channel, Bucket>,
                              bySubreddit: map<nat, Bucket>)
      ensures totals == Totals(sales)
      ensures byProduct == Grouped(sales, ProductKey)
      ensures byChannel == Grouped(sales, ChannelKey)
      ensures bySubreddit == Grouped(sales, SubredditKey)
    {
      totals, byProduct, byChannel, bySubreddit := Bucket(0, 0), map[], map[], map[];
      for i := 0 to |sales|
        invariant totals == Totals(sales[..i])
        invariant byProduct == Grouped(sales[..i], ProductKey)
        invariant byChannel == Grouped(sales[..i], ChannelKey)
        invariant bySubreddit == Grouped(sales[..i], SubredditKey)
      {
        assert sales[..i + 1][..i] == sales[..i];
        var sale := sales[i];
        var one := Bucket(1, sale.cents);
        totals := Plus(totals, one);
        byProduct := byProduct[sale.product := Plus(At0(byProduct, sale.product), one)];
        byChannel := byChannel[sale.channel := Plus(At0(byChannel, sale.channel), one)];
        if sale.subreddit.Some? {
          bySubreddit := bySubreddit[sale.subreddit.value := Plus(At0(bySubreddit, sale.subreddit.value), one)];
        }
      }
      assert sales[..|sales|] == sales;
    }
  }
}
