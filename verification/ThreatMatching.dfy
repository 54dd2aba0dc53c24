/** Matching local events against the indicator store: each pass takes the oldest
    unexamined events, records a sighting for every channel of an event that equals
    an active indicator, and raises at most one standing alert per value. */
module ThreatMatching {
  import opened Collections
  import opened Decay
  import opened FirstReceipts
  import opened Lifecycle
  import opened Options
  import opened OrderedLimit
  import opened Text

  const TI_BATCH: nat := 500
  const TI_CHUNK: nat := 400

  type EventId = string

  /** An absent field is the empty string. */
  datatype Event = Event(ts: int, srcIp: string, destIp: string, destHost: string, url: string, checked: bool)

  type Events = map<EventId, Event>

  // ---------------------------------------------------------------------
  // What an event mentions
  // ---------------------------------------------------------------------

  function NonEmpty(values: seq<string>): seq<string> {
    if values == [] then [] else (if values[0] == "" then [] else [values[0]]) + NonEmpty(values[1..])
  }

  function Channels(e: Event): seq<string> {
    NonEmpty([e.srcIp, e.destIp, Lower(Strip(e.destHost)), e.url])
  }

  /** The values the events mention, one for each channel, in order. */
  function Mentions(events: Events, rows: seq<EventId>): seq<string> {
    if rows == [] then [] else Mentions(events, rows[..|rows| - 1]) + MentionsOf(events, rows[|rows| - 1])
  }

  function MentionsOf(events: Events, id: EventId): seq<string> {
    if id in events then Channels(events[id]) else []
  }

  /** How many of the four fields of an event show the value: its two addresses and its
      url as they stand, its destination host stripped and in lower case. An absent field
      shows nothing. */
  function Shows(e: Event, v: string): nat {
    if v == "" then 0
    else
      (if e.srcIp == v then 1 else 0) + (if e.destIp == v then 1 else 0)
      + (if Lower(Strip(e.destHost)) == v then 1 else 0) + (if e.url == v then 1 else 0)
  }

  /** How many fields of the events show the value. */
  function ShownIn(events: Events, rows: seq<EventId>, v: string): nat {
    if rows == [] then 0
    else
      var last := rows[|rows| - 1];
      ShownIn(events, rows[..|rows| - 1], v) + (if last in events then Shows(events[last], v) else 0)
  }

  lemma {:induction false} NonEmptyCounts(values: seq<string>, v: string)
    ensures multiset(NonEmpty(values))[v] == if v == "" then 0 else multiset(values)[v]
  {
    if values != [] {
      NonEmptyCounts(values[1..], v);
      var head := if values[0] == "" then [] else [values[0]];
      assert multiset(head + NonEmpty(values[1..])) == multiset(head) + multiset(NonEmpty(values[1..]));
      assert values == [values[0]] + values[1..];
    }
  }

  lemma ChannelsShow(e: Event, v: string)
    ensures multiset(Channels(e))[v] == Shows(e, v)
  {
    hide Lower, Strip, NonEmpty;
    NonEmptyCounts([e.srcIp, e.destIp, Lower(Strip(e.destHost)), e.url], v);
  }

  /** A value is mentioned once for each field of an event that shows it. */
  lemma {:induction false} MentionsShow(events: Events, rows: seq<EventId>, v: string)
    ensures multiset(Mentions(events, rows))[v] == ShownIn(events, rows, v)
  {
    if rows != [] {
      hide Channels, Shows;
      var init, last := rows[..|rows| - 1], rows[|rows| - 1];
      MentionsShow(events, init, v);
      if last in events { ChannelsShow(events[last], v); }
      assert multiset(Mentions(events, init) + MentionsOf(events, last))
          == multiset(Mentions(events, init)) + multiset(MentionsOf(events, last));
    }
  }

  /** Shown at all is shown by some event. */
  lemma {:induction false} ShownSomewhere(events: Events, rows: seq<EventId>, v: string)
    ensures ShownIn(events, rows, v) > 0 <==> exists i :: i in rows && i in events && Shows(events[i], v) > 0
  {
    if rows != [] {
      hide Shows;
      var init, last := rows[..|rows| - 1], rows[|rows| - 1];
      ShownSomewhere(events, init, v);
      assert rows == init + [last];
      assert forall i :: i in rows <==> i in init || i == last;
    }
  }

  lemma MentionsSnoc(events: Events, rows: seq<EventId>, id: EventId)
    ensures Mentions(events, rows + [id]) == Mentions(events, rows) + MentionsOf(events, id)
  {
    hide MentionsOf;
    assert (rows + [id])[..|rows|] == rows;
  }

  lemma {:induction false} MentionsConcat(events: Events, a: seq<EventId>, b: seq<EventId>)
    ensures Mentions(events, a + b) == Mentions(events, a) + Mentions(events, b)
  {
    hide MentionsOf, Mentions;
    NoMentions(events);
    if b == [] {
      assert a + b == a && Mentions(events, a) + [] == Mentions(events, a);
    } else {
      var init, last := b[..|b| - 1], b[|b| - 1];
      MentionsConcat(events, a, init);
      MentionsSnoc(events, a + init, last);
      MentionsSnoc(events, init, last);
      assert a + init + [last] == a + b && init + [last] == b;
      var x, y, z := Mentions(events, a), Mentions(events, init), MentionsOf(events, last);
      assert x + y + z == x + (y + z);
    }
  }

  lemma NoMentions(events: Events)
    ensures Mentions(events, []) == []
  {
  }

  /** The events are the same but for what was examined, and perhaps there are more. */
  ghost predicate Extends(events: Events, after: Events) {
    forall i :: i in events ==> i in after && after[i].(checked := true) == events[i].(checked := true)
  }

  lemma SameMentions(events: Events, after: Events, id: EventId)
    requires Extends(events, after) && id in events
    ensures MentionsOf(after, id) == MentionsOf(events, id)
  {
    var a, b := events[id], after[id];
    assert a.(checked := true) == b.(checked := true);
    assert a.srcIp == b.srcIp && a.destIp == b.destIp && a.destHost == b.destHost && a.url == b.url;
  }

  lemma {:induction false} MentionsKept(events: Events, after: Events, rows: seq<EventId>)
    requires Extends(events, after) && forall i :: 0 <= i < |rows| ==> rows[i] in events
    ensures Mentions(after, rows) == Mentions(events, rows)
  {
    if rows != [] {
      hide MentionsOf, Extends;
      MentionsKept(events, after, rows[..|rows| - 1]);
      SameMentions(events, after, rows[|rows| - 1]);
    }
  }

  function Unchecked(events: Events): map<EventId, int> {
    map i | i in events && !events[i].checked :: events[i].ts
  }

  function Checked(events: Events, rows: seq<EventId>): Events {
    map i | i in events :: if i in rows then events[i].(checked := true) else events[i]
  }

  /** The events that mention the value, once for each channel. */
  function Observers(events: Events, rows: seq<EventId>, v: string): seq<EventId> {
    if rows == [] then []
    else
      var last := rows[|rows| - 1];
      Observers(events, rows[..|rows| - 1], v) + Repeat(last, multiset(MentionsOf(events, last))[v])
  }

  function Repeat(id: EventId, n: nat): (r: seq<EventId>)
    ensures |r| == n && forall k :: 0 <= k < n ==> r[k] == id
  {
    seq(n, _ => id)
  }

  lemma {:induction false} AsManyObservers(events: Events, rows: seq<EventId>, v: string)
    ensures |Observers(events, rows, v)| == multiset(Mentions(events, rows))[v]
  {
    if rows != [] {
      hide MentionsOf, Repeat;
      var init, last := rows[..|rows| - 1], rows[|rows| - 1];
      AsManyObservers(events, init, v);
      assert multiset(Mentions(events, init) + MentionsOf(events, last))
          == multiset(Mentions(events, init)) + multiset(MentionsOf(events, last));
    }
  }

  lemma ObserversSnoc(events: Events, rows: seq<EventId>, id: EventId, v: string)
    ensures Observers(events, rows + [id], v) == Observers(events, rows, v) + Repeat(id, multiset(MentionsOf(events, id))[v])
  {
    hide MentionsOf, Repeat;
    assert (rows + [id])[..|rows|] == rows;
  }

  /** An event observes a value once for each of its fields that show it. */
  lemma {:induction false} ObserversShow(events: Events, rows: seq<EventId>, v: string, i: EventId)
    requires Distinct(rows) && forall k :: 0 <= k < |rows| ==> rows[k] in events
    ensures multiset(Observers(events, rows, v))[i] == if i in rows then Shows(events[i], v) else 0
  {
    if rows != [] {
      hide MentionsOf, Repeat, Shows;
      var init, last := rows[..|rows| - 1], rows[|rows| - 1];
      assert rows == init + [last] && last !in init;
      ObserversShow(events, init, v, i);
      OfEvent(events, last);
      ChannelsShow(events[last], v);
      var n := multiset(MentionsOf(events, last))[v];
      RepeatCounts(last, n, i);
      assert multiset(Observers(events, init, v) + Repeat(last, n))
          == multiset(Observers(events, init, v)) + multiset(Repeat(last, n));
    }
  }

  lemma {:induction false} RepeatCounts(id: EventId, n: nat, i: EventId)
    ensures multiset(Repeat(id, n))[i] == if i == id then n else 0
  {
    if n > 0 {
      RepeatCounts(id, n - 1, i);
      RepeatOnce(id, n - 1);
      assert multiset(Repeat(id, n - 1) + [id]) == multiset(Repeat(id, n - 1)) + multiset{id};
    }
  }

  // ---------------------------------------------------------------------
  // One pass
  // ---------------------------------------------------------------------

  predicate IsAlertable(ind: Indicator) {
    var sev := Lower(ind.severity);
    sev == "critical" || sev == "high" || OrZero(ind.score) >= 75
  }

  predicate Matches(indicators: Indicators, id: IndicatorId, v: string) {
    id in indicators && indicators[id].status.Active? && indicators[id].value == v
  }

  /** The indicator each value hits: one that is active and has that value. Several
      may; which one is returned last is the database's choice. */
  ghost predicate Hits(indicators: Indicators, values: set<string>, hits: map<string, IndicatorId>) {
    && (forall v :: v in hits ==> v in values && Matches(indicators, hits[v], v))
    && (forall id, v :: v in values && Matches(indicators, id, v) ==> v in hits)
  }

  predicate IsHit(hits: map<string, IndicatorId>, id: IndicatorId, v: string) {
    v in hits && hits[v] == id
  }

  function AfterSightings(indicators: Indicators, hits: map<string, IndicatorId>, mentions: seq<string>, now: real): Indicators {
    map id | id in indicators ::
      if IsHit(hits, id, indicators[id].value) then SightedTimes(indicators[id], multiset(mentions)[indicators[id].value], now)
      else indicators[id]
  }

  /** The values of a list that get an alert: hit by an alertable indicator and
      without a standing alert. */
  function ToAlert(indicators: Indicators, hits: map<string, IndicatorId>, values: seq<string>, standing: seq<string>): seq<string>
  {
    if values == [] then []
    else
      var init, v := ToAlert(indicators, hits, values[..|values| - 1], standing), values[|values| - 1];
      if v in hits && hits[v] in indicators && IsAlertable(indicators[hits[v]]) && v !in standing then init + [v] else init
  }

  lemma {:induction false} ToAlertSnoc(indicators: Indicators, hits: map<string, IndicatorId>, values: seq<string>,
                                       v: string, standing: seq<string>)
    ensures ToAlert(indicators, hits, values + [v], standing)
         == ToAlert(indicators, hits, values, standing)
            + (if v in hits && hits[v] in indicators && IsAlertable(indicators[hits[v]]) && v !in standing then [v] else [])
  {
    assert (values + [v])[..|values|] == values;
  }

  lemma {:induction false} ToAlertFrom(indicators: Indicators, hits: map<string, IndicatorId>, values: seq<string>, standing: seq<string>)
    requires Distinct(values)
    ensures var raised := ToAlert(indicators, hits, values, standing);
      && Distinct(raised)
      && forall v :: v in raised <==>
           v in values && v in hits && hits[v] in indicators && IsAlertable(indicators[hits[v]]) && v !in standing
  {
    if values != [] {
      ToAlertFrom(indicators, hits, values[..|values| - 1], standing);
    }
  }

  class Store {
    var events: Events
    var indicators: Indicators
    var sightings: seq<(IndicatorId, EventId)>
    var alerts: seq<string>   // the value of each R-TIMATCH alert

    method RecordSighting(id: IndicatorId, event: EventId, now: real)
      requires id in indicators
      modifies this`indicators, this`sightings
      ensures indicators == old(indicators)[id := Sighted(old(indicators)[id], now)]
      ensures sightings == old(sightings) + [(id, event)]
    {
      var ind := indicators[id];
      sightings := sightings + [(id, event)];
      var confidence := if ind.confidence + SIGHTING_BOOST < CONFIDENCE_CAP then ind.confidence + SIGHTING_BOOST else CONFIDENCE_CAP;
      indicators := indicators[id := ind.(sightings := ind.sightings + 1, lastSeen := Some(now), confidence := confidence,
                                          status := if ind.status.KnownGood? then KnownGood else Active)];
    }

    /** The values of the batch, each with its events (once for each channel), keyed in
        the order of first appearance. */
    method Candidates(rows: seq<EventId>) returns (order: seq<string>, candidates: map<string, seq<EventId>>)
      requires forall i :: 0 <= i < |rows| ==> rows[i] in events
      ensures order == Dedup(Mentions(events, rows)) && (forall v :: v in candidates <==> v in Mentions(events, rows))
      ensures forall v :: v in candidates ==> candidates[v] == Observers(events, rows, v)
    {
      hide Channels, Dedup, Grouped, Mentions, MentionsOf, Observers, ToSet;
      order, candidates := [], map[];
      ghost var seen: seq<string> := [];
      NothingGrouped(events);
      for i := 0 to |rows|
        invariant seen == Mentions(events, rows[..i]) && order == Dedup(seen)
        invariant Grouped(candidates, events, rows[..i], "", multiset{}, seen)
      {
        var values := Channels(events[rows[i]]);
        ghost var base, gone := seen, multiset{};
        assert values[..0] == [] && base + [] == base;
        GroupStart(candidates, events, rows[..i], rows[i], seen);
        for k := 0 to |values|
          invariant seen == base + values[..k] && order == Dedup(seen) && gone == multiset(values[..k])
          invariant Grouped(candidates, events, rows[..i], rows[i], gone, seen)
        {
          var v := values[k];
          DedupAppend(seen, v);
          GroupOne(candidates, events, rows[..i], rows[i], gone, seen, v);
          assert values[..k + 1] == values[..k] + [v];
          assert base + values[..k + 1] == seen + [v];
          if v !in candidates {
            order := order + [v];
          }
          candidates := candidates[v := (if v in candidates then candidates[v] else []) + [rows[i]]];
          seen, gone := seen + [v], gone + multiset{v};
        }
        assert values[..|values|] == values;
        MentionsSnoc(events, rows[..i], rows[i]);
        OfEvent(events, rows[i]);
        GroupEnd(candidates, events, rows[..i], rows[i], gone, seen);
        assert rows[..i] + [rows[i]] == rows[..i + 1];
      }
      assert rows[..|rows|] == rows;
      GroupsAre(candidates, events, rows, seen);
    }

    /** The lookup of one part of the values; the rows come in any order, and of two
        with the same value the later one is kept. */
    method LookUp(part: seq<string>, found: map<string, IndicatorId>, ghost looked: set<string>) returns (hits: map<string, IndicatorId>)
      requires Hits(indicators, looked, found)
      ensures Hits(indicators, looked + ToSet(part), hits)
    {
      hits := found;
      var todo := set id | id in indicators && indicators[id].status.Active? && indicators[id].value in part;
      while todo != {}
        invariant forall id :: id in todo ==> id in indicators && indicators[id].status.Active? && indicators[id].value in part
        invariant forall v :: v in hits ==> v in looked + ToSet(part) && Matches(indicators, hits[v], v)
        invariant forall v :: v in found ==> v in hits
        invariant forall id, v :: v in part && Matches(indicators, id, v) && id !in todo ==> v in hits
        decreases todo
      {
        var id :| id in todo;
        todo := todo - {id};
        hits := hits[indicators[id].value := id];
      }
    }

    method LookUpAll(values: seq<string>) returns (hits: map<string, IndicatorId>)
      ensures Hits(indicators, ToSet(values), hits)
    {
      hide Hits, Matches;
      hits := map[];
      NoHits(indicators);
      var i := 0;
      assert values[..0] == [];
      while i < |values|
        invariant Hits(indicators, ToSet(values[..if i < |values| then i else |values|]), hits)
        decreases |values| - i
      {
        var n := if i + TI_CHUNK < |values| then i + TI_CHUNK else |values|;
        hits := LookUp(values[i..n], hits, ToSet(values[..i]));
        assert values[..n] == values[..i] + values[i..n];
        assert ToSet(values[..i]) + ToSet(values[i..n]) == ToSet(values[..n]);
        i := i + TI_CHUNK;
      }
      assert values[..|values|] == values;
    }

    /** A sighting for each event of one value. */
    method RecordAll(id: IndicatorId, seen: seq<EventId>, now: real)
      requires id in indicators
      modifies this`indicators, this`sightings
      ensures indicators == old(indicators)[id := SightedTimes(old(indicators)[id], |seen|, now)]
      ensures sightings == old(sightings) + Entries(id, seen)
    {
      hide Sighted;
      assert Entries(id, seen[..0]) == [];
      for k := 0 to |seen|
        invariant indicators == old(indicators)[id := SightedTimes(old(indicators)[id], k, now)]
        invariant sightings == old(sightings) + Entries(id, seen[..k])
      {
        assert Entries(id, seen[..k + 1]) == Entries(id, seen[..k]) + [(id, seen[k])];
        RecordSighting(id, seen[k], now);
      }
      assert seen[..|seen|] == seen;
    }

    /** One pass. The ghost results say which events it examined and which indicators
        it took for which values. */
    method MatchThreatIntel(limit: nat, now: real) returns (raised: nat, ghost rows: seq<EventId>, ghost hits: map<string, IndicatorId>)
      modifies this
      ensures FirstBy(rows, Unchecked(old(events)), limit)
      ensures Hits(old(indicators), ToSet(Mentions(old(events), rows)), hits)
      ensures events == Checked(old(events), rows)
      ensures indicators == AfterSightings(old(indicators), hits, Mentions(old(events), rows), now)
      ensures
        var added := ToAlert(old(indicators), hits, Dedup(Mentions(old(events), rows)), old(alerts));
        alerts == old(alerts) + added && raised == |added|
      ensures sightings == old(sightings) + SightingLog(old(events), rows, hits, Dedup(Mentions(old(events), rows)))
      // The same on the fields of the events it examined.
      ensures SightedAsShown(old(events), rows, hits, old(indicators), indicators, now)
      ensures AlertedAsShown(old(events), rows, hits, old(indicators), old(alerts), alerts)
      ensures LoggedAsShown(old(events), rows, hits, old(indicators), sightings[|old(sightings)|..])
    {
      hide *;
      raised := 0;
      var unchecked := Unchecked(events);
      var selected := SelectFirst(unchecked, limit);
      rows := selected;
      SelectedAreEvents(events, rows, limit);
      ghost var mentions := Mentions(events, rows);
      var order, candidates := Candidates(selected);
      var found := LookUpAll(order);
      hits := found;
      SameElems(mentions);
      DedupDistinct(mentions);
      var snapshot := indicators;
      var alerted: set<string> := {};
      ghost var ctx := PassStart(events, rows, hits, snapshot, alerts, sightings, now);
      NothingDone(ctx);
      assert order[..0] == [];
      for i := 0 to |order|
        invariant events == ctx.events && Done(ctx, order[..i], indicators, alerts, sightings, raised)
        invariant forall v :: v in alerted ==> v in order[..i]
      {
        var v := order[i];
        assert order[..i + 1] == order[..i] + [v];
        DedupHolds(mentions);
        assert v in order && v in candidates && v !in order[..i];
        if v in found {
          HitMatches(snapshot, ToSet(order), hits, v);
        }
        DoneOne(ctx, order[..i], v, indicators, alerts, sightings, raised);
        if v in found {
          RecordAll(found[v], candidates[v], now);
          if IsAlertable(snapshot[found[v]]) && v !in alerted {
            alerted := alerted + {v};
            if v !in alerts {
              alerts := alerts + [v];
              raised := raised + 1;
            }
          }
        }
      }
      assert order[..|order|] == order;
      AllDone(ctx, order, indicators, alerts, sightings, raised);
      PassShown(ctx, limit);
      events := Checked(events, selected);
      assert sightings[|ctx.log|..] == SightingLog(ctx.events, rows, hits, Dedup(mentions));
    }
  }

  /** What one pass started from. */
  datatype PassStart = PassStart(events: Events, rows: seq<EventId>, hits: map<string, IndicatorId>, indicators: Indicators,
                             alerts: seq<string>, log: seq<(IndicatorId, EventId)>, now: real)

  /** The tables when the pass has gone through some of the values. */
  ghost predicate Done(c: PassStart, values: seq<string>, indicators: Indicators, alerts: seq<string>,
                       log: seq<(IndicatorId, EventId)>, raised: nat) {
    var added := ToAlert(c.indicators, c.hits, values, c.alerts);
    && indicators == Seen(c.indicators, c.hits, Mentions(c.events, c.rows), values, c.now)
    && alerts == c.alerts + added && raised == |added|
    && log == c.log + SightingLog(c.events, c.rows, c.hits, values)
  }

  lemma NothingDone(c: PassStart)
    ensures Done(c, [], c.indicators, c.alerts, c.log, 0)
  {
    NothingSeen(c.indicators, c.hits, Mentions(c.events, c.rows), c.now, c.alerts);
  }

  lemma DoneOne(c: PassStart, values: seq<string>, v: string, indicators: Indicators, alerts: seq<string>,
                log: seq<(IndicatorId, EventId)>, raised: nat)
    requires Done(c, values, indicators, alerts, log, raised) && v !in values
    requires v in c.hits ==> c.hits[v] in c.indicators && c.indicators[c.hits[v]].value == v
    ensures v !in c.hits ==> Done(c, values + [v], indicators, alerts, log, raised)
    ensures v in c.hits ==>
      var id, seen := c.hits[v], Observers(c.events, c.rows, v);
      var raise := IsAlertable(c.indicators[id]) && v !in alerts;
      && id in indicators
      && Done(c, values + [v], indicators[id := SightedTimes(indicators[id], |seen|, c.now)],
              if raise then alerts + [v] else alerts, log + Entries(id, seen), if raise then raised + 1 else raised)
  {
    hide Mentions, Seen, ToAlert, SightingLog, Observers, Entries, IsAlertable, SightedTimes;
    var added := ToAlert(c.indicators, c.hits, values, c.alerts);
    SeenOne(c.indicators, c.hits, Mentions(c.events, c.rows), values, v, c.now);
    ToAlertSnoc(c.indicators, c.hits, values, v, c.alerts);
    ToAlertWithin(c.indicators, c.hits, values, c.alerts);
    AsManyObservers(c.events, c.rows, v);
    LogSnoc(c.events, c.rows, c.hits, values, v);
    assert added + [] == added;
    assert v in alerts <==> v in c.alerts;
    assert c.alerts + (added + [v]) == c.alerts + added + [v];
    var before := SightingLog(c.events, c.rows, c.hits, values);
    assert before + [] == before;
    if v in c.hits {
      var more := Entries(c.hits[v], Observers(c.events, c.rows, v));
      assert c.log + (before + more) == c.log + before + more;
    }
  }

  lemma AllDone(c: PassStart, order: seq<string>, indicators: Indicators, alerts: seq<string>,
                log: seq<(IndicatorId, EventId)>, raised: nat)
    requires Done(c, order, indicators, alerts, log, raised) && Hits(c.indicators, ToSet(order), c.hits)
    ensures
      var added := ToAlert(c.indicators, c.hits, order, c.alerts);
      && indicators == AfterSightings(c.indicators, c.hits, Mentions(c.events, c.rows), c.now)
      && alerts == c.alerts + added && raised == |added|
      && log == c.log + SightingLog(c.events, c.rows, c.hits, order)
  {
    hide Mentions, Seen, ToAlert, SightingLog, Hits, AfterSightings;
    AllSeen(c.indicators, c.hits, Mentions(c.events, c.rows), order, c.now);
  }

  /** The indicators that a value shown by the batch hits: exactly the values of active
      indicators are hit, each by one that has it. */
  ghost predicate HitAsShown(events: Events, rows: seq<EventId>, hits: map<string, IndicatorId>, indicators: Indicators) {
    && (forall v :: v in hits ==> hits[v] in indicators && indicators[hits[v]].value == v && indicators[hits[v]].status == Active)
    && (forall v :: v in hits ==> ShownIn(events, rows, v) > 0)
    && (forall id :: id in indicators && indicators[id].status == Active && ShownIn(events, rows, indicators[id].value) > 0 ==>
          indicators[id].value in hits)
  }

  /** Each indicator that was hit gains a sighting for every field that shows its value,
      and with it the confidence, the date and the status; no other changes. */
  ghost predicate SightedAsShown(events: Events, rows: seq<EventId>, hits: map<string, IndicatorId>, before: Indicators,
                                 after: Indicators, now: real) {
    && HitAsShown(events, rows, hits, before) && after.Keys == before.Keys
    && forall id :: id in before ==>
         if before[id].value in hits && hits[before[id].value] == id
         then Gained(before[id], after[id], ShownIn(events, rows, before[id].value), now)
         else after[id] == before[id]
  }

  /** k sightings, one at least. */
  ghost predicate Gained(before: Indicator, after: Indicator, k: nat, now: real) {
    k > 0 && after == before.(sightings := before.sightings + k, lastSeen := Some(now), status := Active,
                              confidence := if before.confidence + 8 * k < 100 then before.confidence + 8 * k else 100)
  }

  /** Exactly the values shown that hit an alertable indicator have an alert now, besides
      those that had one; no value gets a second. */
  ghost predicate AlertedAsShown(events: Events, rows: seq<EventId>, hits: map<string, IndicatorId>, indicators: Indicators,
                                 before: seq<string>, after: seq<string>) {
    && before <= after && (Distinct(before) ==> Distinct(after))
    && (forall v :: v in after <==> v in before || Alerts(events, rows, hits, indicators, v))
  }

  ghost predicate Alerts(events: Events, rows: seq<EventId>, hits: map<string, IndicatorId>, indicators: Indicators, v: string) {
    ShownIn(events, rows, v) > 0 && v in hits && hits[v] in indicators && Worth(indicators[hits[v]])
  }

  /** Critical or high activity, or a score of 75 or more. */
  ghost predicate Worth(ind: Indicator) {
    Lower(ind.severity) == "critical" || Lower(ind.severity) == "high" || (ind.score.Some? && ind.score.value >= 75)
  }

  /** The log has an entry of an indicator and an event for every field of the event that
      shows the indicator's value. */
  ghost predicate LoggedAsShown(events: Events, rows: seq<EventId>, hits: map<string, IndicatorId>, indicators: Indicators,
                                log: seq<(IndicatorId, EventId)>) {
    forall id, i :: id in indicators ==> multiset(log)[(id, i)] == Entered(events, rows, hits, indicators[id].value, id, i)
  }

  function Entered(events: Events, rows: seq<EventId>, hits: map<string, IndicatorId>, v: string, id: IndicatorId, i: EventId): nat {
    if i in rows && i in events && v in hits && hits[v] == id then Shows(events[i], v) else 0
  }

  lemma HitShown(c: PassStart)
    requires Hits(c.indicators, ToSet(Mentions(c.events, c.rows)), c.hits)
    ensures HitAsShown(c.events, c.rows, c.hits, c.indicators)
  {
    hide Mentions, ShownIn;
    forall v ensures v in Mentions(c.events, c.rows) <==> ShownIn(c.events, c.rows, v) > 0 {
      MentionsShow(c.events, c.rows, v);
      assert v in Mentions(c.events, c.rows) <==> multiset(Mentions(c.events, c.rows))[v] > 0;
    }
    forall id | id in c.indicators && c.indicators[id].status == Active && ShownIn(c.events, c.rows, c.indicators[id].value) > 0
      ensures c.indicators[id].value in c.hits
    {
      assert Matches(c.indicators, id, c.indicators[id].value);
    }
  }

  lemma SightedShown(c: PassStart)
    requires HitAsShown(c.events, c.rows, c.hits, c.indicators)
    ensures SightedAsShown(c.events, c.rows, c.hits, c.indicators,
                           AfterSightings(c.indicators, c.hits, Mentions(c.events, c.rows), c.now), c.now)
  {
    hide Mentions, ShownIn, SightedTimes;
    var after := AfterSightings(c.indicators, c.hits, Mentions(c.events, c.rows), c.now);
    forall id | id in c.indicators
      ensures if c.indicators[id].value in c.hits && c.hits[c.indicators[id].value] == id
              then Gained(c.indicators[id], after[id], ShownIn(c.events, c.rows, c.indicators[id].value), c.now)
              else after[id] == c.indicators[id]
    {
      var ind := c.indicators[id];
      MentionsShow(c.events, c.rows, ind.value);
      SightingsAddUp(ind, ShownIn(c.events, c.rows, ind.value), c.now);
    }
  }

  lemma AlertedShown(c: PassStart)
    requires HitAsShown(c.events, c.rows, c.hits, c.indicators)
    ensures AlertedAsShown(c.events, c.rows, c.hits, c.indicators, c.alerts,
                           c.alerts + ToAlert(c.indicators, c.hits, Dedup(Mentions(c.events, c.rows)), c.alerts))
  {
    hide Mentions, ShownIn, Dedup, ToAlert, Distinct, HitAsShown;
    var mentions := Mentions(c.events, c.rows);
    DedupDistinct(mentions);
    DedupHolds(mentions);
    ToAlertFrom(c.indicators, c.hits, Dedup(mentions), c.alerts);
    forall v ensures v in mentions <==> ShownIn(c.events, c.rows, v) > 0 {
      MentionsShow(c.events, c.rows, v);
      assert v in mentions <==> multiset(mentions)[v] > 0;
    }
    if Distinct(c.alerts) { PassAlerts(c.indicators, c.hits, mentions, c.alerts); }
  }

  lemma {:induction false} EntriesCount(id: IndicatorId, seen: seq<EventId>, j: IndicatorId, i: EventId)
    ensures multiset(Entries(id, seen))[(j, i)] == if j == id then multiset(seen)[i] else 0
  {
    if seen != [] {
      var init, last := seen[..|seen| - 1], seen[|seen| - 1];
      EntriesCount(id, init, j, i);
      assert Entries(id, seen) == Entries(id, init) + [(id, last)];
      assert seen == init + [last];
    }
  }

  lemma {:induction false} LogCounts(c: PassStart, values: seq<string>, id: IndicatorId, i: EventId)
    requires Distinct(values) && Distinct(c.rows) && (forall k :: 0 <= k < |c.rows| ==> c.rows[k] in c.events)
    requires HitAsShown(c.events, c.rows, c.hits, c.indicators) && id in c.indicators
    ensures multiset(SightingLog(c.events, c.rows, c.hits, values))[(id, i)] ==
      if i in c.rows && c.indicators[id].value in values && c.indicators[id].value in c.hits && c.hits[c.indicators[id].value] == id
      then Shows(c.events[i], c.indicators[id].value) else 0
  {
    if values != [] {
      hide Shows, Observers, Entries, ShownIn;
      var init, v := values[..|values| - 1], values[|values| - 1];
      assert values == init + [v] && v !in init;
      LogCounts(c, init, id, i);
      var more := if v in c.hits then Entries(c.hits[v], Observers(c.events, c.rows, v)) else [];
      assert multiset(SightingLog(c.events, c.rows, c.hits, init) + more)
          == multiset(SightingLog(c.events, c.rows, c.hits, init)) + multiset(more);
      if v in c.hits {
        EntriesCount(c.hits[v], Observers(c.events, c.rows, v), id, i);
        ObserversShow(c.events, c.rows, v, i);
      }
    }
  }

  lemma LoggedShown(c: PassStart)
    requires HitAsShown(c.events, c.rows, c.hits, c.indicators)
    requires Distinct(c.rows) && forall k :: 0 <= k < |c.rows| ==> c.rows[k] in c.events
    ensures LoggedAsShown(c.events, c.rows, c.hits, c.indicators,
                          SightingLog(c.events, c.rows, c.hits, Dedup(Mentions(c.events, c.rows))))
  {
    hide Mentions, ShownIn, Dedup, SightingLog, Distinct, Shows;
    var mentions := Mentions(c.events, c.rows);
    DedupDistinct(mentions);
    DedupHolds(mentions);
    var log := SightingLog(c.events, c.rows, c.hits, Dedup(mentions));
    forall id, i | id in c.indicators
      ensures multiset(log)[(id, i)] == Entered(c.events, c.rows, c.hits, c.indicators[id].value, id, i)
    {
      var v := c.indicators[id].value;
      LogCounts(c, Dedup(mentions), id, i);
      MentionsShow(c.events, c.rows, v);
      assert v in mentions <==> multiset(mentions)[v] > 0;
    }
  }

  /** One pass on the fields of its events. */
  lemma PassShown(c: PassStart, limit: nat)
    requires FirstBy(c.rows, Unchecked(c.events), limit)
    requires Hits(c.indicators, ToSet(Mentions(c.events, c.rows)), c.hits)
    ensures
      var mentions := Mentions(c.events, c.rows);
      && SightedAsShown(c.events, c.rows, c.hits, c.indicators, AfterSightings(c.indicators, c.hits, mentions, c.now), c.now)
      && AlertedAsShown(c.events, c.rows, c.hits, c.indicators, c.alerts,
                        c.alerts + ToAlert(c.indicators, c.hits, Dedup(mentions), c.alerts))
      && LoggedAsShown(c.events, c.rows, c.hits, c.indicators, SightingLog(c.events, c.rows, c.hits, Dedup(mentions)))
  {
    hide *;
    SelectedAreEvents(c.events, c.rows, limit);
    TakenAreRows(Unchecked(c.events), c.rows, limit);
    HitShown(c);
    SightedShown(c);
    AlertedShown(c);
    LoggedShown(c);
  }

  lemma NoHits(indicators: Indicators)
    ensures Hits(indicators, ToSet([]), map[])
  {
  }

  lemma SelectedAreEvents(events: Events, rows: seq<EventId>, limit: nat)
    requires FirstBy(rows, Unchecked(events), limit)
    ensures forall i :: 0 <= i < |rows| ==> rows[i] in events && !events[rows[i]].checked
  {
  }

  lemma SameElems(mentions: seq<string>)
    ensures ToSet(Dedup(mentions)) == ToSet(mentions)
  {
  }

  lemma DedupDistinct(mentions: seq<string>)
    ensures Distinct(Dedup(mentions))
    ensures forall i, j :: 0 <= i <= j < |Dedup(mentions)| ==> Dedup(mentions)[j] !in Dedup(mentions)[..i]
  {
  }

  lemma HitMatches(indicators: Indicators, values: set<string>, hits: map<string, IndicatorId>, v: string)
    requires Hits(indicators, values, hits) && v in hits
    ensures hits[v] in indicators && indicators[hits[v]].value == v
  {
  }

  function Entries(id: IndicatorId, seen: seq<EventId>): seq<(IndicatorId, EventId)> {
    seq(|seen|, k requires 0 <= k < |seen| => (id, seen[k]))
  }

  /** The sightings logged for the values, in order. */
  function SightingLog(events: Events, rows: seq<EventId>, hits: map<string, IndicatorId>, values: seq<string>): seq<(IndicatorId, EventId)> {
    if values == [] then []
    else
      var v := values[|values| - 1];
      SightingLog(events, rows, hits, values[..|values| - 1]) + (if v in hits then Entries(hits[v], Observers(events, rows, v)) else [])
  }

  lemma LogSnoc(events: Events, rows: seq<EventId>, hits: map<string, IndicatorId>, values: seq<string>, v: string)
    ensures SightingLog(events, rows, hits, values + [v])
         == SightingLog(events, rows, hits, values) + (if v in hits then Entries(hits[v], Observers(events, rows, v)) else [])
  {
    hide Entries, Observers;
    assert (values + [v])[..|values|] == values;
  }

  /** The indicators when only some of the values were gone through. */
  function Seen(indicators: Indicators, hits: map<string, IndicatorId>, mentions: seq<string>, values: seq<string>, now: real): Indicators {
    map id | id in indicators ::
      if IsHit(hits, id, indicators[id].value) && indicators[id].value in values
        then SightedTimes(indicators[id], multiset(mentions)[indicators[id].value], now)
      else indicators[id]
  }

  lemma NothingSeen(indicators: Indicators, hits: map<string, IndicatorId>, mentions: seq<string>, now: real, standing: seq<string>)
    ensures Seen(indicators, hits, mentions, [], now) == indicators
    ensures ToAlert(indicators, hits, [], standing) == []
  {
    hide SightedTimes;
  }

  lemma SeenOne(indicators: Indicators, hits: map<string, IndicatorId>, mentions: seq<string>, values: seq<string>, v: string, now: real)
    requires v !in values
    requires v in hits ==> hits[v] in indicators && indicators[hits[v]].value == v
    ensures
      var before, after := Seen(indicators, hits, mentions, values, now), Seen(indicators, hits, mentions, values + [v], now);
      if v in hits then hits[v] in before && after == before[hits[v] := SightedTimes(before[hits[v]], multiset(mentions)[v], now)]
      else after == before
  {
    hide SightedTimes;
  }

  lemma AllSeen(indicators: Indicators, hits: map<string, IndicatorId>, mentions: seq<string>, order: seq<string>, now: real)
    requires Hits(indicators, ToSet(order), hits)
    ensures Seen(indicators, hits, mentions, order, now) == AfterSightings(indicators, hits, mentions, now)
  {
    hide SightedTimes, Matches;
  }

  lemma {:induction false} ToAlertWithin(indicators: Indicators, hits: map<string, IndicatorId>, values: seq<string>, standing: seq<string>)
    ensures forall v :: v in ToAlert(indicators, hits, values, standing) ==> v in values
  {
    if values != [] {
      ToAlertWithin(indicators, hits, values[..|values| - 1], standing);
    }
  }

  lemma OfEvent(events: Events, id: EventId)
    requires id in events
    ensures MentionsOf(events, id) == Channels(events[id])
  {
  }

  /** Each value that was seen, with its observers among the rows, and then `id` once
      more for each of the values of that event gone through. */
  ghost predicate Grouped(candidates: map<string, seq<EventId>>, events: Events, rows: seq<EventId>,
                          id: EventId, gone: multiset<string>, seen: seq<string>) {
    && candidates.Keys == ToSet(seen)
    && (forall v :: v in candidates ==> candidates[v] == Observers(events, rows, v) + Repeat(id, gone[v]))
    && (forall v :: v !in candidates ==> Observers(events, rows, v) == [] && gone[v] == 0)
  }

  lemma NothingGrouped(events: Events)
    ensures Dedup<string>([]) == [] && Grouped(map[], events, [], "", multiset{}, []) && Mentions(events, []) == []
  {
  }

  lemma GroupStart(candidates: map<string, seq<EventId>>, events: Events, rows: seq<EventId>, id: EventId, seen: seq<string>)
    requires Grouped(candidates, events, rows, "", multiset{}, seen)
    ensures Grouped(candidates, events, rows, id, multiset{}, seen)
  {
    hide Observers, ToSet;
    assert Repeat("", 0) == Repeat(id, 0) == [];
  }

  lemma ElemsSnoc(seen: seq<string>, v: string)
    ensures ToSet(seen + [v]) == ToSet(seen) + {v}
    ensures v in ToSet(seen) <==> v in seen
  {
  }

  lemma GroupOne(candidates: map<string, seq<EventId>>, events: Events, rows: seq<EventId>, id: EventId,
                 gone: multiset<string>, seen: seq<string>, v: string)
    requires Grouped(candidates, events, rows, id, gone, seen)
    ensures v in candidates <==> v in seen
    ensures Grouped(candidates[v := (if v in candidates then candidates[v] else []) + [id]], events, rows, id,
                    gone + multiset{v}, seen + [v])
  {
    hide Observers, Repeat, ToSet;
    ElemsSnoc(seen, v);
    var had := if v in candidates then candidates[v] else [];
    var some := Repeat(id, gone[v]);
    RepeatOnce(id, gone[v]);
    var after, now := candidates[v := had + [id]], gone + multiset{v};
    assert had == Observers(events, rows, v) + some;
    assert Observers(events, rows, v) + some + [id] == Observers(events, rows, v) + (some + [id]);
    forall w | w in after ensures after[w] == Observers(events, rows, w) + Repeat(id, now[w]) {
      if w == v {
        assert now[w] == gone[v] + 1;
      } else {
        assert now[w] == gone[w] && after[w] == candidates[w];
      }
    }
  }

  lemma RepeatOnce(id: EventId, n: nat)
    ensures Repeat(id, n + 1) == Repeat(id, n) + [id]
  {
  }

  lemma GroupEnd(candidates: map<string, seq<EventId>>, events: Events, rows: seq<EventId>, id: EventId,
                 gone: multiset<string>, seen: seq<string>)
    requires Grouped(candidates, events, rows, id, gone, seen) && gone == multiset(MentionsOf(events, id))
    ensures Grouped(candidates, events, rows + [id], "", multiset{}, seen)
  {
    hide MentionsOf, Observers, Repeat, ToSet;
    forall v ensures Observers(events, rows + [id], v) == Observers(events, rows, v) + Repeat(id, gone[v]) {
      ObserversSnoc(events, rows, id, v);
    }
    assert forall v :: v in candidates ==> candidates[v] + [] == candidates[v];
  }

  lemma GroupsAre(candidates: map<string, seq<EventId>>, events: Events, rows: seq<EventId>, seen: seq<string>)
    requires Grouped(candidates, events, rows, "", multiset{}, seen)
    ensures forall v :: v in candidates <==> v in seen
    ensures forall v :: v in candidates ==> candidates[v] == Observers(events, rows, v)
  {
    hide Observers;
    assert Repeat("", 0) == [];
  }

  // ---------------------------------------------------------------------
  // Runs
  // ---------------------------------------------------------------------

  /** `examined` lists the events in the order the passes took them. */
  datatype State = State(events: Events, indicators: Indicators, alerts: seq<string>, examined: seq<EventId>)

  datatype Action =
    | Ingest(event: EventId, what: Event)
    | Import(indicator: IndicatorId, row: Indicator)
    | SetStatus(indicator: IndicatorId, status: Status)   // decay, an analyst, a whitelist
    | Pass(rows: seq<EventId>, hits: map<string, IndicatorId>, now: real)

  ghost predicate Enabled(s: State, a: Action) {
    match a
    case Ingest(event, what) => event !in s.events && !what.checked
    case Import(id, _) => id !in s.indicators
    case SetStatus(id, _) => id in s.indicators
    case Pass(rows, hits, _) =>
      FirstBy(rows, Unchecked(s.events), TI_BATCH) && Hits(s.indicators, ToSet(Mentions(s.events, rows)), hits)
  }

  function Step(s: State, a: Action): State {
    match a
    case Ingest(event, what) => s.(events := s.events[event := what])
    case Import(id, row) => s.(indicators := s.indicators[id := row])
    case SetStatus(id, status) =>
      if id in s.indicators then s.(indicators := s.indicators[id := s.indicators[id].(status := status)]) else s
    case Pass(rows, hits, now) =>
      var mentions := Mentions(s.events, rows);
      State(Checked(s.events, rows), AfterSightings(s.indicators, hits, mentions, now),
            s.alerts + ToAlert(s.indicators, hits, Dedup(mentions), s.alerts), s.examined + rows)
  }

  ghost predicate Runs(s: State, run: seq<Action>)
    decreases |run|
  {
    run == [] || (Enabled(s, run[0]) && Runs(Step(s, run[0]), run[1..]))
  }

  function After(s: State, run: seq<Action>): State
    decreases |run|
  {
    if run == [] then s else After(Step(s, run[0]), run[1..])
  }

  // ---------------------------------------------------------------------
  // Every event exactly once
  // ---------------------------------------------------------------------

  /** An event is marked exactly when a pass took it, and no pass took it twice; no
      value has two alerts. */
  ghost predicate Inv(s: State) {
    && Distinct(s.examined) && (forall i :: i in s.examined <==> i in s.events && s.events[i].checked)
    && Distinct(s.alerts)
  }

  lemma PassExamines(events: Events, examined: seq<EventId>, rows: seq<EventId>, limit: nat)
    requires Distinct(examined) && forall i :: i in examined <==> i in events && events[i].checked
    requires FirstBy(rows, Unchecked(events), limit)
    ensures Distinct(examined + rows)
    ensures forall i :: i in examined + rows <==> i in Checked(events, rows) && Checked(events, rows)[i].checked
  {
    var keys := Unchecked(events);
    assert forall i :: 0 <= i < |rows| ==> rows[i] in keys && rows[i] !in examined;
    var all := examined + rows;
    forall i, j | 0 <= i < j < |all| ensures all[i] != all[j] {
      if i < |examined| <= j {
        assert all[i] in examined && all[j] == rows[j - |examined|];
      }
    }
  }

  lemma PassAlerts(indicators: Indicators, hits: map<string, IndicatorId>, mentions: seq<string>, alerts: seq<string>)
    requires Distinct(alerts)
    ensures Distinct(alerts + ToAlert(indicators, hits, Dedup(mentions), alerts))
  {
    DedupDistinct(mentions);
    var added := ToAlert(indicators, hits, Dedup(mentions), alerts);
    ToAlertFrom(indicators, hits, Dedup(mentions), alerts);
    var all := alerts + added;
    forall i, j | 0 <= i < j < |all| ensures all[i] != all[j] {
      if i < |alerts| <= j {
        assert all[i] in alerts && all[j] in added;
      }
    }
  }

  lemma InvStep(s: State, a: Action)
    requires Inv(s) && Enabled(s, a)
    ensures Inv(Step(s, a))
  {
    hide Hits, Mentions, FirstBy, Checked, ToAlert, AfterSightings, Dedup, Unchecked;
    if a.Pass? {
      PassExamines(s.events, s.examined, a.rows, TI_BATCH);
      PassAlerts(s.indicators, a.hits, Mentions(s.events, a.rows), s.alerts);
    }
  }

  lemma {:induction false} InvRun(s: State, run: seq<Action>)
    requires Inv(s) && Runs(s, run)
    ensures Inv(After(s, run))
    decreases |run|
  {
    if run != [] {
      hide Inv, Step, Enabled;
      InvStep(s, run[0]);
      InvRun(Step(s, run[0]), run[1..]);
    }
  }

  ghost predicate Fresh(s: State) {
    s.examined == [] && s.alerts == [] && forall i :: i in s.events ==> !s.events[i].checked
  }

  /** Over every run of ingests, imports, status changes and passes: each event is
      examined at most once, exactly those examined carry the mark, and each value has
      at most one standing alert. */
  lemma ExaminedOnce(s: State, run: seq<Action>)
    requires Fresh(s) && Runs(s, run)
    ensures
      var t := After(s, run);
      && (forall i :: i in t.events ==> multiset(t.examined)[i] == if t.events[i].checked then 1 else 0)
      && Distinct(t.alerts)
  {
    hide Runs, After, Step, Enabled;
    InvRun(s, run);
    var t := After(s, run);
    forall i | i in t.events ensures multiset(t.examined)[i] == if t.events[i].checked then 1 else 0 {
      DistinctMultiset(t.examined, i);
    }
  }

  lemma {:induction false} DistinctMultiset(rows: seq<EventId>, i: EventId)
    requires Distinct(rows)
    ensures multiset(rows)[i] == if i in rows then 1 else 0
  {
    if rows != [] {
      var init, last := rows[..|rows| - 1], rows[|rows| - 1];
      DistinctMultiset(init, i);
      assert rows == init + [last];
      assert multiset(rows) == multiset(init) + multiset{last};
      assert forall k :: 0 <= k < |init| ==> init[k] == rows[k] && init[k] != last;
    }
  }

  lemma TakenFirst(keys: map<EventId, int>, rows: seq<EventId>, limit: nat, i: EventId, j: EventId)
    requires FirstBy(rows, keys, limit) && i in keys && i !in rows && j in rows
    ensures j in keys && keys[j] <= keys[i]
  {
    var k :| 0 <= k < |rows| && rows[k] == j;
  }

  lemma TakenAreRows(keys: map<EventId, int>, rows: seq<EventId>, limit: nat)
    requires FirstBy(rows, keys, limit)
    ensures Distinct(rows) && ToSet(rows) <= keys.Keys
    ensures |rows| == if |keys| < limit then |keys| else limit
  {
  }

  lemma TakenOldest(keys: map<EventId, int>, rows: seq<EventId>, limit: nat, left: map<EventId, int>)
    requires FirstBy(rows, keys, limit) && left == keys - ToSet(rows)
    ensures |left| == if |keys| <= limit then 0 else |keys| - limit
    ensures forall i, j :: i in left && j in keys && j !in left ==> keys[j] <= keys[i]
  {
    hide FirstBy, Distinct;
    TakenAreRows(keys, rows, limit);
    DistinctCount(rows);
    forall i, j | i in left && j in keys && j !in left ensures keys[j] <= keys[i] {
      TakenFirst(keys, rows, limit, i, j);
    }
  }

  lemma StillUnchecked(events: Events, rows: seq<EventId>)
    ensures Unchecked(Checked(events, rows)) == Unchecked(events) - ToSet(rows)
  {
  }

  /** The limit delays events but skips none: a pass takes all that are waiting, or as
      many as it may, and then none of those left is older than one it took. */
  lemma PassTakesOldest(s: State, a: Action)
    requires a.Pass? && Enabled(s, a)
    ensures
      var before, after := Unchecked(s.events), Unchecked(Step(s, a).events);
      && |after| == (if |before| <= 500 then 0 else |before| - 500)
      && (forall i, j :: i in after && j in before && j !in after ==> before[j] <= before[i])
  {
    hide Hits, Mentions, AfterSightings, ToAlert, Dedup, FirstBy, Unchecked, Checked;
    StillUnchecked(s.events, a.rows);
    TakenOldest(Unchecked(s.events), a.rows, TI_BATCH, Unchecked(Step(s, a).events));
  }

  // ---------------------------------------------------------------------
  // Sightings count what was seen
  // ---------------------------------------------------------------------

  /** The only indicator of its value, and active. */
  ghost predicate Sole(s: State, id: IndicatorId, v: string) {
    Matches(s.indicators, id, v) && forall other :: other in s.indicators && s.indicators[other].value == v ==> other == id
  }

  /** Nothing in the run touches its status or adds another of its value. */
  predicate LeavesAlone(a: Action, id: IndicatorId, v: string) {
    && (a.SetStatus? ==> a.indicator != id)
    && (a.Import? ==> a.row.value != v)
  }

  /** How often the examined events mention the value. */
  function Tally(s: State, v: string): nat {
    multiset(Mentions(s.events, s.examined))[v]
  }

  /** The indicator's counters say how often it was mentioned since the start. */
  ghost predicate Tallied(s: State, id: IndicatorId, v: string, start: Indicator) {
    && Sole(s, id, v)
    && s.indicators[id].sightings == start.sightings + Tally(s, v)
    && s.indicators[id].confidence == Min(CONFIDENCE_CAP, start.confidence + SIGHTING_BOOST * Tally(s, v))
    && forall i :: i in s.examined ==> i in s.events
  }

  lemma SoleHit(indicators: Indicators, hits: map<string, IndicatorId>, mentions: seq<string>, id: IndicatorId, v: string)
    requires Matches(indicators, id, v) && forall other :: other in indicators && indicators[other].value == v ==> other == id
    requires Hits(indicators, ToSet(mentions), hits)
    ensures v in mentions ==> v in hits && hits[v] == id
    ensures multiset(mentions)[v] > 0 <==> v in mentions
  {
    assert v in mentions ==> v in ToSet(mentions);
  }

  /** What one pass adds to the tally. */
  lemma PassTally(s: State, rows: seq<EventId>, v: string)
    requires forall i :: i in s.examined ==> i in s.events
    requires forall i :: 0 <= i < |rows| ==> rows[i] in s.events
    ensures multiset(Mentions(Checked(s.events, rows), s.examined + rows))[v]
         == Tally(s, v) + multiset(Mentions(s.events, rows))[v]
  {
    hide Mentions;
    var all := s.examined + rows;
    assert forall i :: 0 <= i < |all| ==> all[i] in s.events;
    MentionsKept(s.events, Checked(s.events, rows), all);
    MentionsConcat(s.events, s.examined, rows);
    assert multiset(Mentions(s.events, s.examined) + Mentions(s.events, rows))
        == multiset(Mentions(s.events, s.examined)) + multiset(Mentions(s.events, rows));
  }

  lemma PassKeepsTally(s: State, a: Action, id: IndicatorId, v: string, start: Indicator)
    requires a.Pass? && Enabled(s, a) && Tallied(s, id, v, start)
    ensures Tallied(Step(s, a), id, v, start)
  {
    hide Mentions, ToAlert, Dedup, FirstBy, SightedTimes, Unchecked;
    SelectedAreEvents(s.events, a.rows, TI_BATCH);
    var mentions := Mentions(s.events, a.rows);
    var k := multiset(mentions)[v];
    PassTally(s, a.rows, v);
    SoleHit(s.indicators, a.hits, mentions, id, v);
    SightingsAddUp(s.indicators[id], k, a.now);
    var t := Step(s, a);
    assert t.indicators[id] == SightedTimes(s.indicators[id], k, a.now);
    assert Tally(t, v) == Tally(s, v) + k;
    forall i | i in t.examined ensures i in t.events {
      assert i in s.examined || i in a.rows;
    }
  }

  lemma OtherKeepsTally(s: State, a: Action, id: IndicatorId, v: string, start: Indicator)
    requires !a.Pass? && Enabled(s, a) && LeavesAlone(a, id, v) && Tallied(s, id, v, start)
    ensures Tallied(Step(s, a), id, v, start)
  {
    hide Mentions;
    if a.Ingest? {
      assert forall i :: 0 <= i < |s.examined| ==> s.examined[i] in s.events by {
        forall i | 0 <= i < |s.examined| ensures s.examined[i] in s.events {
          assert s.examined[i] in s.examined;
        }
      }
      MentionsKept(s.events, Step(s, a).events, s.examined);
    }
  }

  lemma {:induction false} TallyRun(s: State, run: seq<Action>, id: IndicatorId, v: string, start: Indicator)
    requires Runs(s, run) && Tallied(s, id, v, start)
    requires forall i :: 0 <= i < |run| ==> LeavesAlone(run[i], id, v)
    ensures Tallied(After(s, run), id, v, start)
    decreases |run|
  {
    if run != [] {
      hide Tallied, Step, Enabled, LeavesAlone;
      if run[0].Pass? {
        PassKeepsTally(s, run[0], id, v, start);
      } else {
        OtherKeepsTally(s, run[0], id, v, start);
      }
      TallyRun(Step(s, run[0]), run[1..], id, v, start);
    }
  }

  /** Over every run that leaves an active indicator of unique value alone: it gained
      exactly one sighting for each field of an examined event that shows its value, and
      its confidence is what that many boosts make of it. */
  lemma SightingsCountChannels(s: State, run: seq<Action>, id: IndicatorId, v: string)
    requires Fresh(s) && Runs(s, run)
    requires Sole(s, id, v) && s.indicators[id].confidence <= 100
    requires forall i :: 0 <= i < |run| ==> LeavesAlone(run[i], id, v)
    ensures
      var t := After(s, run);
      var k := ShownIn(t.events, t.examined, v);
      && id in t.indicators && t.indicators[id].sightings == s.indicators[id].sightings + k
      && t.indicators[id].confidence == Min(100, s.indicators[id].confidence + 8 * k)
  {
    hide Runs, After, LeavesAlone, Sole, Fresh, Mentions, ShownIn;
    MentionsShow(After(s, run).events, After(s, run).examined, v);
    SoleMatches(s, id, v);
    StartTally(s, id, v);
    TallyRun(s, run, id, v, s.indicators[id]);
    SoleMatches(After(s, run), id, v);
  }

  lemma StartTally(s: State, id: IndicatorId, v: string)
    requires Fresh(s) && Sole(s, id, v) && s.indicators[id].confidence <= CONFIDENCE_CAP
    ensures Tallied(s, id, v, s.indicators[id])
  {
    NoMentions(s.events);
  }

  lemma SoleMatches(s: State, id: IndicatorId, v: string)
    requires Sole(s, id, v)
    ensures id in s.indicators
  {
  }

  /** A value that some event of a pass shows, in any of its fields, has its alert after
      the pass when its sole indicator is worth one. */
  lemma SeenIsAlerted(s: State, a: Action, id: IndicatorId, v: string, i: EventId)
    requires a.Pass? && Enabled(s, a) && Sole(s, id, v) && Worth(s.indicators[id])
    requires i in a.rows && i in s.events && Shows(s.events[i], v) > 0
    ensures v in Step(s, a).alerts
  {
    hide Mentions, FirstBy, AfterSightings, Checked, Lower, Shows, ShownIn;
    var mentions := Mentions(s.events, a.rows);
    ShownSomewhere(s.events, a.rows, v);
    MentionsShow(s.events, a.rows, v);
    SoleHit(s.indicators, a.hits, mentions, id, v);
    DedupDistinct(mentions);
    DedupHolds(mentions);
    ToAlertFrom(s.indicators, a.hits, Dedup(mentions), s.alerts);
  }

  /** Whatever has been examined so far and shows the value has led to its alert. */
  ghost predicate Raised(s: State, id: IndicatorId, v: string) {
    && Sole(s, id, v) && Worth(s.indicators[id])
    && (forall i :: i in s.examined ==> i in s.events && (Shows(s.events[i], v) > 0 ==> v in s.alerts))
  }

  lemma StaysSole(s: State, a: Action, id: IndicatorId, v: string)
    requires Enabled(s, a) && LeavesAlone(a, id, v) && Sole(s, id, v) && Worth(s.indicators[id])
    ensures Sole(Step(s, a), id, v) && Worth(Step(s, a).indicators[id])
  {
    hide Mentions, ToAlert, Dedup, FirstBy, SightedTimes, Unchecked, Lower, Hits, Checked;
    if a.Pass? {
      var mentions := Mentions(s.events, a.rows);
      forall k: nat, j | j in s.indicators { SightingsAddUp(s.indicators[j], k, a.now); }
    }
  }

  lemma SameFields(s: State, a: Action, i: EventId, v: string)
    requires Enabled(s, a) && i in s.events
    ensures i in Step(s, a).events && Shows(Step(s, a).events[i], v) == Shows(s.events[i], v)
    ensures forall w :: w in s.alerts ==> w in Step(s, a).alerts
  {
    hide Mentions, AfterSightings, ToAlert, Dedup, FirstBy, Hits, Lower, Strip;
  }

  lemma RaisedStep(s: State, a: Action, id: IndicatorId, v: string)
    requires Enabled(s, a) && LeavesAlone(a, id, v) && Raised(s, id, v)
    ensures Raised(Step(s, a), id, v)
  {
    hide Step, Enabled, Worth, Shows, Sole;
    var t := Step(s, a);
    StaysSole(s, a, id, v);
    PassTakes(s, a);
    forall i | i in t.examined ensures i in t.events && (Shows(t.events[i], v) > 0 ==> v in t.alerts) {
      SameFields(s, a, i, v);
      if i !in s.examined && Shows(s.events[i], v) > 0 {
        SeenIsAlerted(s, a, id, v, i);
      }
    }
  }

  lemma PassTakes(s: State, a: Action)
    requires Enabled(s, a)
    ensures a.Pass? ==> forall i :: i in Step(s, a).examined <==> i in s.examined || i in a.rows
    ensures a.Pass? ==> forall i :: i in a.rows ==> i in s.events
    ensures !a.Pass? ==> Step(s, a).examined == s.examined
  {
    hide Mentions, AfterSightings, ToAlert, Dedup, Hits;
    if a.Pass? { SelectedAreEvents(s.events, a.rows, TI_BATCH); }
  }

  lemma {:induction false} RaisedRun(s: State, run: seq<Action>, id: IndicatorId, v: string)
    requires Runs(s, run) && Raised(s, id, v) && forall i :: 0 <= i < |run| ==> LeavesAlone(run[i], id, v)
    ensures Raised(After(s, run), id, v)
    decreases |run|
  {
    if run != [] {
      hide Raised, Step, Enabled, LeavesAlone;
      RaisedStep(s, run[0], id, v);
      RaisedRun(Step(s, run[0]), run[1..], id, v);
    }
  }

  /** Over every run that leaves an active indicator of unique value alone which is worth
      an alert: once an event that shows the value, in whichever field, has been examined,
      the value has its alert. */
  lemma ShownIsAlerted(s: State, run: seq<Action>, id: IndicatorId, v: string, i: EventId)
    requires Fresh(s) && Runs(s, run) && Sole(s, id, v) && Worth(s.indicators[id])
    requires forall k :: 0 <= k < |run| ==> LeavesAlone(run[k], id, v)
    requires i in After(s, run).examined && i in After(s, run).events && Shows(After(s, run).events[i], v) > 0
    ensures v in After(s, run).alerts
  {
    hide Runs, After, LeavesAlone, Sole, Worth, Shows;
    RaisedRun(s, run, id, v);
  }

  lemma DedupHolds(log: seq<string>)
    ensures forall x :: x in Dedup(log) <==> x in log
  {
  }
}
