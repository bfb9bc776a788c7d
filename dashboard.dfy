/** The dashboard's figures (src/pages/Dashboard.tsx): total revenue over the
    join rows, the per-service tally of join rows, the five most booked services
    and the record counts shown on the cards. */
module Dashboard {
  import opened Common
  import opened Schema
  import opened RemoteStore

  /** The label of a join row whose service is missing or has no name. */
  const Unknown := "Desconhecido"

  /** How many services the popularity table keeps. */
  const TopCount := 5

  // ---------------------------------------------------------------------------
  // Revenue
  // ---------------------------------------------------------------------------

  /** The sum of the snapshot prices of `rows`. */
  function PriceSum(rows: seq<AppointmentService>): real
  {
    if rows == [] then 0.0 else rows[0].price + PriceSum(rows[1..])
  }

  /** The revenue `reduce`: the sum of the prices of the rows read, or 0 when
      nothing was read. */
  function Revenue(data: Option<seq<AppointmentService>>): (total: real)
    ensures data.None? || data.value == [] ==> total == 0.0
    ensures data.Some? && (forall i :: 0 <= i < |data.value| ==> data.value[i].price >= 0.0) ==> total >= 0.0
  {
    match data
    case None => 0.0
    case Some(rows) =>
      PriceSumNonNegative(rows);
      PriceSum(rows)
  }

  lemma {:induction false} PriceSumNonNegative(rows: seq<AppointmentService>)
    ensures (forall i :: 0 <= i < |rows| ==> rows[i].price >= 0.0) ==> PriceSum(rows) >= 0.0
  {
    if rows != [] {
      PriceSumNonNegative(rows[1..]);
      assert forall i :: 0 <= i < |rows[1..]| ==> rows[1..][i] == rows[i + 1];
    }
  }

  /** Revenue adds up over concatenated row lists. */
  lemma {:induction false} RevenueConcat(a: seq<AppointmentService>, b: seq<AppointmentService>)
    ensures Revenue(Some(a + b)) == Revenue(Some(a)) + Revenue(Some(b))
  {
    if a != [] {
      assert (a + b)[1..] == a[1..] + b;
      RevenueConcat(a[1..], b);
    } else {
      assert a + b == b;
    }
  }

  /** The revenue is the revenue of one appointment's rows plus that of the rest. */
  lemma {:induction false} RevenueSplit(links: seq<AppointmentService>, id: Id)
    ensures Revenue(Some(links)) == Revenue(Some(LinksFor(links, id))) + Revenue(Some(LinksNotFor(links, id)))
  {
    if links != [] {
      RevenueSplit(links[1..], id);
    }
  }

  /** Replacing an appointment's join rows changes the revenue by the difference
      between the prices of the new rows and those of the old ones. */
  lemma RevenueAfterReplace(links: seq<AppointmentService>, id: Id, rows: seq<AppointmentService>)
    ensures Revenue(Some(Replaced(links, id, rows)))
         == Revenue(Some(links)) - Revenue(Some(LinksFor(links, id))) + Revenue(Some(rows))
  {
    RevenueConcat(LinksNotFor(links, id), rows);
    RevenueSplit(links, id);
  }

  // ---------------------------------------------------------------------------
  // Tally of join rows per service name
  // ---------------------------------------------------------------------------

  /** The label a row is counted under: the embedded service's name, or
      the unknown label when the service is missing or its name is empty. */
  function Label(name: Option<string>): (l: string)
    ensures l != ""
    ensures name.Some? && name.value != "" ==> l == name.value
    ensures name.None? || name.value == "" ==> l == Unknown
  {
    if name.Some? && name.value != "" then name.value else Unknown
  }

  /** The labels of the rows read, in order; none when nothing was read. */
  function Labels(data: Option<seq<Option<string>>>): (labels: seq<string>)
    ensures data.None? ==> labels == []
    ensures data.Some? ==> |labels| == |data.value|
    ensures data.Some? ==> forall i :: 0 <= i < |labels| ==> labels[i] == Label(data.value[i])
  {
    match data
    case None => []
    case Some(rows) => seq(|rows|, i requires 0 <= i < |rows| => Label(rows[i]))
  }

  /** The name the nested `services(name)` select embeds in a join row: that of
      the service the row refers to, if it still exists. */
  function EmbeddedName(link: AppointmentService, services: seq<Service>): (name: Option<string>)
    ensures name.Some? <==> exists s :: s in services && s.id == link.serviceId
  {
    match FindService(services, link.serviceId)
    case Some(s) => Some(s.name)
    case None => None
  }

  /** What the select of join rows with their service's name reads from the tables. */
  function ServiceData(links: seq<AppointmentService>, services: seq<Service>): (data: seq<Option<string>>)
    ensures |data| == |links|
    ensures forall i :: 0 <= i < |links| ==> data[i] == EmbeddedName(links[i], services)
  {
    seq(|links|, i requires 0 <= i < |links| => EmbeddedName(links[i], services))
  }

  /** How the tally labels the store's join rows: a row whose service exists
      with a non-empty name is counted under that name; a row whose service is
      gone, or has no name, under the unknown label. */
  lemma StoreLabels(links: seq<AppointmentService>, services: seq<Service>, i: int)
    requires 0 <= i < |links|
    ensures var l := Labels(Some(ServiceData(links, services)))[i];
            var found := FindService(services, links[i].serviceId);
            && (found.Some? && found.value.name != "" ==> l == found.value.name)
            && (found.Some? && found.value.name == "" ==> l == Unknown)
            && ((forall s :: s in services ==> s.id != links[i].serviceId) ==> l == Unknown)
  {
  }

  predicate NoDuplicates(s: seq<string>)
  {
    forall i, j :: 0 <= i < j < |s| ==> s[i] != s[j]
  }

  /** The distinct elements of `s` in the order they first appear: the order
      in which a `Map` keeps the keys set into it. */
  function FirstOccurrences(s: seq<string>): seq<string>
  {
    if s == [] then []
    else
      var r := FirstOccurrences(s[..|s| - 1]);
      if s[|s| - 1] in r then r else r + [s[|s| - 1]]
  }

  lemma {:induction false} FirstOccurrencesHas(s: seq<string>, x: string)
    ensures x in FirstOccurrences(s) <==> x in s
  {
    if s != [] {
      FirstOccurrencesHas(s[..|s| - 1], x);
      assert s == s[..|s| - 1] + [s[|s| - 1]];
    }
  }

  /** Each element of `s` appears once, in order of first appearance. */
  lemma {:induction false} FirstOccurrencesMeaning(s: seq<string>)
    ensures NoDuplicates(FirstOccurrences(s))
    ensures forall x :: x in FirstOccurrences(s) <==> x in s
  {
    forall x ensures x in FirstOccurrences(s) <==> x in s {
      FirstOccurrencesHas(s, x);
    }
    if s != [] {
      FirstOccurrencesMeaning(s[..|s| - 1]);
    }
  }

  /** For each label, the number of times it occurs in `labels`. */
  function CountsOf(labels: seq<string>): map<string, nat>
  {
    if labels == [] then map[]
    else
      var m := CountsOf(labels[..|labels| - 1]);
      var x := labels[|labels| - 1];
      if x in m then m[x := m[x] + 1] else m[x := 1]
  }

  lemma {:induction false} CountsOfHas(labels: seq<string>, x: string)
    ensures x in CountsOf(labels) <==> x in labels
  {
    if labels != [] {
      CountsOfHas(labels[..|labels| - 1], x);
      assert labels == labels[..|labels| - 1] + [labels[|labels| - 1]];
    }
  }

  /** The tally has one key per label, and each key's count is the number of
      times the label occurs. */
  lemma {:induction false} CountsOfMeaning(labels: seq<string>)
    ensures forall n :: n in CountsOf(labels) <==> n in labels
    ensures forall n :: n in CountsOf(labels) ==> CountsOf(labels)[n] == multiset(labels)[n] >= 1
  {
    forall n ensures n in CountsOf(labels) <==> n in labels {
      CountsOfHas(labels, n);
    }
    if labels != [] {
      var init := labels[..|labels| - 1];
      var x := labels[|labels| - 1];
      CountsOfMeaning(init);
      assert labels == init + [x];
      assert multiset(labels) == multiset(init) + multiset{x};
    }
  }

  /** One turn of the `serviceMap` loop: the next label is a new key exactly
      when it has not been seen, and the tally moves on by that label. */
  lemma TallyStep(labels: seq<string>, i: int, names: seq<string>, counts: map<string, nat>)
    requires 0 <= i < |labels|
    requires names == FirstOccurrences(labels[..i]) && counts == CountsOf(labels[..i])
    ensures labels[i] in counts <==> labels[i] in names
    ensures labels[i] in counts ==> names == FirstOccurrences(labels[..i + 1])
    ensures labels[i] !in counts ==> names + [labels[i]] == FirstOccurrences(labels[..i + 1])
    ensures labels[i] in counts ==> counts[labels[i] := counts[labels[i]] + 1] == CountsOf(labels[..i + 1])
    ensures labels[i] !in counts ==> counts[labels[i] := 1] == CountsOf(labels[..i + 1])
  {
    assert labels[..i + 1][..i] == labels[..i];
    FirstOccurrencesHas(labels[..i], labels[i]);
    CountsOfHas(labels[..i], labels[i]);
  }

  /** The `serviceMap` loop: one key per label, in order of first appearance,
      mapped to the number of rows that carry it. */
  method CountByName(data: Option<seq<Option<string>>>) returns (names: seq<string>, counts: map<string, nat>)
    ensures names == FirstOccurrences(Labels(data))
    ensures counts == CountsOf(Labels(data))
  {
    names := [];
    counts := map[];
    if data.Some? {
      var rows := data.value;
      ghost var labels := Labels(data);
      var i := 0;
      while i < |rows|
        invariant 0 <= i <= |rows|
        invariant names == FirstOccurrences(labels[..i])
        invariant counts == CountsOf(labels[..i])
      {
        var name := Label(rows[i]);
        TallyStep(labels, i, names, counts);
        if name in counts {
          counts := counts[name := counts[name] + 1];
        } else {
          names := names + [name];
          counts := counts[name := 1];
        }
        i := i + 1;
      }
      assert labels[..i] == labels;
    }
  }

  /** The sum of `m`'s multiplicities of the elements of `names`. */
  function CountSum(names: seq<string>, m: multiset<string>): int
  {
    if names == [] then 0 else CountSum(names[..|names| - 1], m) + m[names[|names| - 1]]
  }

  lemma {:induction false} CountSumAddOne(names: seq<string>, m: multiset<string>, x: string)
    requires NoDuplicates(names)
    ensures CountSum(names, m + multiset{x}) == CountSum(names, m) + (if x in names then 1 else 0)
  {
    if names != [] {
      var init := names[..|names| - 1];
      assert names == init + [names[|names| - 1]];
      CountSumAddOne(init, m, x);
    }
  }

  /** Every row is counted once: the counts of the tally add up to the number of rows. */
  lemma {:induction false} CountsAddUp(labels: seq<string>)
    ensures CountSum(FirstOccurrences(labels), multiset(labels)) == |labels|
  {
    if labels != [] {
      var init := labels[..|labels| - 1];
      var x := labels[|labels| - 1];
      assert labels == init + [x];
      CountsAddUp(init);
      FirstOccurrencesMeaning(init);
      var r := FirstOccurrences(init);
      CountSumAddOne(r, multiset(init), x);
      if x !in r {
        var r' := r + [x];
        assert r'[..|r'| - 1] == r;
        assert multiset(init)[x] == 0;
      }
    }
  }

  // ---------------------------------------------------------------------------
  // The five most booked services
  // ---------------------------------------------------------------------------

  datatype ServiceStat = ServiceStat(name: string, value: nat)

  /** The `Map`'s entries as `{ name, value }` records, in key order. */
  function Entries(names: seq<string>, counts: map<string, nat>): (entries: seq<ServiceStat>)
    requires forall n :: n in names ==> n in counts
    ensures |entries| == |names|
    ensures forall i :: 0 <= i < |names| ==> entries[i] == ServiceStat(names[i], counts[names[i]])
  {
    seq(|names|, i requires 0 <= i < |names| => ServiceStat(names[i], counts[names[i]]))
  }

  predicate SortedByValue(s: seq<ServiceStat>)
  {
    forall i, j :: 0 <= i < j < |s| ==> s[i].value >= s[j].value
  }

  /** Puts `x` in front of the first entry whose value is not above its own. */
  function Insert(x: ServiceStat, s: seq<ServiceStat>): seq<ServiceStat>
  {
    if s == [] then [x]
    else if x.value >= s[0].value then [x] + s
    else [s[0]] + Insert(x, s[1..])
  }

  /** Inserting adds exactly `x`. */
  lemma {:induction false} InsertMultiset(x: ServiceStat, s: seq<ServiceStat>)
    ensures |Insert(x, s)| == |s| + 1
    ensures multiset(Insert(x, s)) == multiset(s) + multiset{x}
  {
    if s != [] && x.value < s[0].value {
      InsertMultiset(x, s[1..]);
      assert s == [s[0]] + s[1..];
    }
  }

  /** Inserting keeps a sorted list sorted. */
  lemma {:induction false} InsertSorted(x: ServiceStat, s: seq<ServiceStat>)
    requires SortedByValue(s)
    ensures SortedByValue(Insert(x, s))
  {
    if s != [] && x.value < s[0].value {
      var rest := Insert(x, s[1..]);
      InsertSorted(x, s[1..]);
      InsertMultiset(x, s[1..]);
      forall i | 0 <= i < |rest| ensures rest[i].value <= s[0].value {
        assert rest[i] in multiset(rest);
        if rest[i] != x {
          assert rest[i] in multiset(s[1..]);
          var j :| 0 <= j < |s[1..]| && s[1..][j] == rest[i];
          assert s[j + 1] == rest[i];
        }
      }
    }
  }

  /** The `sort` by descending value: a stable sort, largest value first. */
  function SortByValue(s: seq<ServiceStat>): (r: seq<ServiceStat>)
    ensures |r| == |s|
    ensures multiset(r) == multiset(s)
    ensures SortedByValue(r)
  {
    if s == [] then [] else
      assert s == [s[0]] + s[1..];
      InsertMultiset(s[0], SortByValue(s[1..]));
      InsertSorted(s[0], SortByValue(s[1..]));
      Insert(s[0], SortByValue(s[1..]))
  }

  function HasValue(v: nat): ServiceStat -> bool
  {
    (e: ServiceStat) => e.value == v
  }

  lemma {:induction false} InsertKeepsTies(x: ServiceStat, s: seq<ServiceStat>, v: nat)
    ensures Filter(Insert(x, s), HasValue(v)) ==
      if x.value == v then [x] + Filter(s, HasValue(v)) else Filter(s, HasValue(v))
  {
    var keep := HasValue(v);
    FilterSingle(x, keep);
    if s == [] {
      assert Filter(s, keep) == [];
    } else if x.value >= s[0].value {
      FilterConcat([x], s, keep);
    } else {
      var head, tail := s[0], s[1..];
      InsertKeepsTies(x, tail, v);
      FilterSingle(head, keep);
      FilterConcat([head], Insert(x, tail), keep);
      assert s == [head] + tail;
      FilterConcat([head], tail, keep);
    }
  }

  /** The sort is stable: entries with equal values keep their relative order. */
  lemma {:induction false} SortKeepsTies(s: seq<ServiceStat>, v: nat)
    ensures Filter(SortByValue(s), HasValue(v)) == Filter(s, HasValue(v))
  {
    if s != [] {
      SortKeepsTies(s[1..], v);
      InsertKeepsTies(s[0], SortByValue(s[1..]), v);
    }
  }

  function Min(a: int, b: int): (m: int)
    ensures m <= a && m <= b && (m == a || m == b)
  {
    if a <= b then a else b
  }

  lemma DroppedMultiset(kept: seq<ServiceStat>, dropped: seq<ServiceStat>)
    ensures multiset(kept + dropped) - multiset(kept) == multiset(dropped)
  {
    assert multiset(kept + dropped) == multiset(kept) + multiset(dropped);
  }

  /** In a list sorted by value, whatever follows position `k` is below
      everything before it. */
  lemma DroppedBelowKept(sorted: seq<ServiceStat>, k: int)
    requires SortedByValue(sorted) && 0 <= k <= |sorted|
    ensures forall e, i :: e in sorted[k..] && 0 <= i < k ==> sorted[i].value >= e.value
  {
    forall e, i | e in sorted[k..] && 0 <= i < k ensures sorted[i].value >= e.value {
      var j :| 0 <= j < |sorted[k..]| && sorted[k..][j] == e;
      assert sorted[k + j] == e;
    }
  }

  /** Cutting a sorted list keeps the largest values: what is cut off is in the
      list and below everything that is kept. */
  lemma PrefixKeepsLargest(entries: seq<ServiceStat>, sorted: seq<ServiceStat>, k: int)
    requires multiset(sorted) == multiset(entries)
    requires SortedByValue(sorted) && 0 <= k <= |sorted|
    ensures SortedByValue(sorted[..k])
    ensures multiset(sorted[..k]) <= multiset(entries)
    ensures forall e, i :: e in multiset(entries) - multiset(sorted[..k]) && 0 <= i < k ==> sorted[..k][i].value >= e.value
  {
    var kept, dropped := sorted[..k], sorted[k..];
    assert sorted == kept + dropped;
    DroppedMultiset(kept, dropped);
    DroppedBelowKept(sorted, k);
    forall e, i | e in multiset(entries) - multiset(kept) && 0 <= i < k ensures kept[i].value >= e.value {
      assert e in multiset(dropped);
      assert kept[i] == sorted[i];
    }
  }

  /** The `sort` and `slice` to five: at most five entries, largest value first,
      taken from the entries, none of them below an entry left out. */
  function PopularServices(entries: seq<ServiceStat>): (r: seq<ServiceStat>)
    ensures |r| == Min(TopCount, |entries|)
    ensures SortedByValue(r)
    ensures multiset(r) <= multiset(entries)
    ensures forall e, i :: e in multiset(entries) - multiset(r) && 0 <= i < |r| ==> r[i].value >= e.value
  {
    var sorted := SortByValue(entries);
    PrefixKeepsLargest(entries, sorted, Min(TopCount, |entries|));
    sorted[..Min(TopCount, |entries|)]
  }

  /** The entries built from the tally: each is a label with the number of rows
      that carry it, no two share a name, and every label has one. */
  lemma TallyEntries(labels: seq<string>)
    ensures forall n :: n in FirstOccurrences(labels) ==> n in CountsOf(labels)
    ensures var entries := Entries(FirstOccurrences(labels), CountsOf(labels));
            forall i :: 0 <= i < |entries| ==>
              entries[i].name in labels && entries[i].value == multiset(labels)[entries[i].name]
    ensures var entries := Entries(FirstOccurrences(labels), CountsOf(labels));
            forall i, j :: 0 <= i < j < |entries| ==> entries[i].name != entries[j].name
    ensures var entries := Entries(FirstOccurrences(labels), CountsOf(labels));
            forall n :: n in labels ==> exists k :: 0 <= k < |entries| && entries[k] == ServiceStat(n, multiset(labels)[n])
  {
    FirstOccurrencesMeaning(labels);
    CountsOfMeaning(labels);
    var names := FirstOccurrences(labels);
    var entries := Entries(names, CountsOf(labels));
    forall n | n in labels
      ensures exists k :: 0 <= k < |entries| && entries[k] == ServiceStat(n, multiset(labels)[n])
    {
      var k :| 0 <= k < |names| && names[k] == n;
      assert entries[k] == ServiceStat(n, multiset(labels)[n]);
    }
  }

  lemma PickedFrom(r: seq<ServiceStat>, s: seq<ServiceStat>, i: int)
    requires multiset(r) <= multiset(s) && 0 <= i < |r|
    ensures exists j :: 0 <= j < |s| && s[j] == r[i]
  {
    assert r[i] in multiset(r);
    assert r[i] in s;
  }

  /** A list of distinct entries holds each entry at most once. */
  lemma {:induction false} AtMostOnce(s: seq<ServiceStat>)
    requires forall i, j :: 0 <= i < j < |s| ==> s[i] != s[j]
    ensures forall x :: multiset(s)[x] <= 1
  {
    if s != [] {
      var rest := s[1..];
      forall i, j | 0 <= i < j < |rest| ensures rest[i] != rest[j] {
        assert rest[i] == s[i + 1] && rest[j] == s[j + 1];
      }
      AtMostOnce(rest);
      assert s == [s[0]] + rest;
      assert s[0] !in rest;
    }
  }

  /** An entry at two positions is held at least twice. */
  lemma TwicePresent(r: seq<ServiceStat>, i: int, j: int)
    requires 0 <= i < j < |r|
    ensures r[i] == r[j] ==> multiset(r)[r[i]] >= 2
  {
    assert r == r[..j] + r[j..];
    assert r[..j][i] == r[i];
    assert r[j..][0] == r[j];
    assert multiset(r) == multiset(r[..j]) + multiset(r[j..]);
  }

  /** Entries picked from a list whose names are distinct have distinct names. */
  lemma DistinctPicks(r: seq<ServiceStat>, entries: seq<ServiceStat>)
    requires multiset(r) <= multiset(entries)
    requires forall i, j :: 0 <= i < j < |entries| ==> entries[i].name != entries[j].name
    ensures forall i, j :: 0 <= i < j < |r| ==> r[i].name != r[j].name
  {
    AtMostOnce(entries);
    forall i, j | 0 <= i < j < |r| ensures r[i].name != r[j].name {
      PickedFrom(r, entries, i);
      PickedFrom(r, entries, j);
      TwicePresent(r, i, j);
    }
  }

  /** Whether the table has an entry for the label `n`. */
  predicate Listed(table: seq<ServiceStat>, n: string)
  {
    exists j :: 0 <= j < |table| && table[j].name == n
  }

  /** The popularity table of the rows read: their tally, ranked and cut to five.
      It names each label at most once, with its exact row count, and a label
      left out has no more rows than any label kept. */
  method PopularityTable(data: Option<seq<Option<string>>>) returns (table: seq<ServiceStat>)
    ensures |table| <= TopCount
    ensures |table| == Min(TopCount, |FirstOccurrences(Labels(data))|)
    ensures SortedByValue(table)
    ensures forall i :: 0 <= i < |table| ==>
      table[i].name in Labels(data) && table[i].value == multiset(Labels(data))[table[i].name]
    ensures forall i, j :: 0 <= i < j < |table| ==> table[i].name != table[j].name
    ensures forall n, i :: n in Labels(data) && !Listed(table, n) && 0 <= i < |table| ==>
      table[i].value >= multiset(Labels(data))[n]
  {
    var names, counts := CountByName(data);
    ghost var labels := Labels(data);
    TallyEntries(labels);
    var entries := Entries(names, counts);
    table := PopularServices(entries);
    forall i | 0 <= i < |table|
      ensures table[i].name in labels && table[i].value == multiset(labels)[table[i].name]
    {
      PickedFrom(table, entries, i);
      var j :| 0 <= j < |entries| && entries[j] == table[i];
    }
    DistinctPicks(table, entries);
    forall n, i | n in labels && !Listed(table, n) && 0 <= i < |table|
      ensures table[i].value >= multiset(labels)[n]
    {
      var k :| 0 <= k < |entries| && entries[k] == ServiceStat(n, multiset(labels)[n]);
      assert entries[k] !in multiset(table);
      assert entries[k] in multiset(entries);
    }
  }

  // ---------------------------------------------------------------------------
  // The cards
  // ---------------------------------------------------------------------------

  datatype Stats = Stats(clientCount: nat, serviceCount: nat, appointmentCount: nat, revenue: real)

  /** The fallback of a count to 0: a count the store did not report is shown as 0. */
  function CountOrZero(count: Option<nat>): (shown: nat)
    ensures count.None? ==> shown == 0
    ensures count.Some? ==> shown == count.value
  {
    match count
    case Some(n) => n
    case None => 0
  }

  /** The figures on the cards, from the three counts and the join rows read. */
  function DisplayStats(clientCount: Option<nat>, serviceCount: Option<nat>, appointmentCount: Option<nat>,
                        prices: Option<seq<AppointmentService>>): (stats: Stats)
    ensures clientCount.None? ==> stats.clientCount == 0
    ensures serviceCount.None? ==> stats.serviceCount == 0
    ensures appointmentCount.None? ==> stats.appointmentCount == 0
    ensures clientCount.Some? ==> stats.clientCount == clientCount.value
    ensures serviceCount.Some? ==> stats.serviceCount == serviceCount.value
    ensures appointmentCount.Some? ==> stats.appointmentCount == appointmentCount.value
    ensures stats.revenue == Revenue(prices)
  {
    Stats(CountOrZero(clientCount), CountOrZero(serviceCount), CountOrZero(appointmentCount), Revenue(prices))
  }

  /** When every read succeeds, the cards show the sizes of the tables and the
      sum of all snapshot prices; when every read fails, they show zeros. */
  lemma StatsOfStore(clients: seq<Client>, services: seq<Service>, appointments: seq<Appointment>,
                     links: seq<AppointmentService>)
    ensures DisplayStats(Some(|clients|), Some(|services|), Some(|appointments|), Some(links))
         == Stats(|clients|, |services|, |appointments|, PriceSum(links))
    ensures DisplayStats(None, None, None, None) == Stats(0, 0, 0, 0.0)
  {
  }
}
