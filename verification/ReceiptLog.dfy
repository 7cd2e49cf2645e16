/**
 * The append-only event table of the research queue together with the durable receipt
 * numbering that migration 0007 introduces: the one-off numbering of the events that already
 * exist, and the trigger that numbers every later one.
 *
 * Job ids, event ids and request ids are modelled as integers (only their equality and, for
 * event ids, their order is used); times are integer milliseconds.
 */
module ReceiptLog {
  import opened Basics

  /** A verified stable principal either has the formal-owner form or it has not. */
  datatype Principal = Formal(id: int) | Informal(id: int)

  datatype EventKind =
    | CLAIMED | CLAIM_DENIED | LEASE_EXPIRED
    | SUBMIT_RECEIVED | SUBMIT_REJECTED | SUBMIT_CONFLICT | COMPLETED

  datatype Event = Event(
    id: int, job: int, kind: EventKind, actor: Principal, proposal: Option<int>, request: int, at: int)

  /** `events` in row order; `order` and `next` are the two tables the trigger maintains. */
  datatype Log = Log(events: seq<Event>, order: map<int, int>, next: int)

  /** An event INSERT together with the trigger it fires. */
  function Append(log: Log, e: Event): Log {
    Log(log.events + [e], log.order[e.id := log.next], log.next + 1)
  }

  ghost predicate DistinctIds(events: seq<Event>) {
    forall i, j :: 0 <= i < j < |events| ==> events[i].id != events[j].id
  }

  /** `feed` lists the events of `log` in receipt-sequence order: the k-th one is numbered k+1. */
  ghost predicate IsFeed(log: Log, feed: seq<Event>) {
    && log.next == |feed| + 1
    && DistinctIds(feed)
    && multiset(feed) == multiset(log.events)
    && (forall k :: 0 <= k < |feed| ==> feed[k].id in log.order && log.order[feed[k].id] == k + 1)
    && (forall id :: id in log.order ==> exists k :: 0 <= k < |feed| && feed[k].id == id)
  }

  ghost predicate Numbered(log: Log) {
    exists feed :: IsFeed(log, feed)
  }

  ghost function Feed(log: Log): (feed: seq<Event>)
    requires Numbered(log)
    ensures IsFeed(log, feed)
  {
    var feed :| IsFeed(log, feed); feed
  }

  lemma {:induction false} InBoth(a: seq<Event>, b: seq<Event>, e: Event)
    requires multiset(a) == multiset(b)
    ensures e in a <==> e in b
  {
    assert e in a <==> e in multiset(a);
    assert e in b <==> e in multiset(b);
  }

  lemma {:induction false} FeedUnique(log: Log, f: seq<Event>, g: seq<Event>)
    requires IsFeed(log, f) && IsFeed(log, g)
    ensures f == g
  {
    forall k | 0 <= k < |f| ensures f[k] == g[k] {
      InBoth(f, log.events, g[k]);
      InBoth(g, log.events, g[k]);
      assert g[k] in f;
      var j :| 0 <= j < |f| && f[j] == g[k];
      assert log.order[g[k].id] == k + 1;
    }
  }

  ghost predicate IsAssigned(log: Log, s: int) {
    exists e :: e in log.events && e.id in log.order && log.order[e.id] == s
  }

  /** The trigger keeps events and sequences a bijection onto 1..n with next = n + 1. */
  lemma {:induction false} NumberingIsBijection(log: Log)
    requires Numbered(log)
    ensures log.next == |log.events| + 1
    ensures forall e :: e in log.events ==> e.id in log.order && 1 <= log.order[e.id] <= |log.events|
    ensures forall d, e :: d in log.events && e in log.events && log.order[d.id] == log.order[e.id] ==> d == e
    ensures forall s :: 1 <= s <= |log.events| ==> IsAssigned(log, s)
    ensures forall id :: id in log.order ==> exists e :: e in log.events && e.id == id
  {
    var f := Feed(log);
    assert |f| == |multiset(f)| == |multiset(log.events)| == |log.events|;
    forall e ensures e in log.events <==> e in f { InBoth(log.events, f, e); }
    forall s | 1 <= s <= |log.events| ensures IsAssigned(log, s) {
      assert f[s - 1] in f;
    }
  }

  /** A fresh event is numbered after every earlier one and renumbers none of them. */
  lemma {:induction false} AppendFeed(log: Log, f: seq<Event>, e: Event)
    requires IsFeed(log, f)
    requires e.id !in log.order
    ensures IsFeed(Append(log, e), f + [e])
    ensures Numbered(Append(log, e))
  {
    var l, g := Append(log, e), f + [e];
    assert multiset(g) == multiset(l.events);
    forall id | id in l.order ensures exists k :: 0 <= k < |g| && g[k].id == id {
      if id == e.id {
        assert g[|f|].id == id;
      } else {
        var k :| 0 <= k < |f| && f[k].id == id;
        assert g[k].id == id;
      }
    }
    assert IsFeed(l, g);
  }

  /** The part of a feed that readers rely on: positions and sequences agree. */
  ghost predicate Indexed(log: Log, feed: seq<Event>) {
    && (forall k :: 0 <= k < |feed| ==>
          feed[k] in log.events && feed[k].id in log.order && log.order[feed[k].id] == k + 1)
    && (forall e :: e in log.events ==>
          e.id in log.order && 1 <= log.order[e.id] <= |feed| && feed[log.order[e.id] - 1] == e)
  }

  lemma {:induction false} FeedIsIndexed(log: Log, feed: seq<Event>)
    requires IsFeed(log, feed)
    ensures Indexed(log, feed) && |feed| == |log.events|
  {
    assert |feed| == |multiset(feed)| == |log.events|;
    forall k | 0 <= k < |feed| ensures feed[k] in log.events {
      InBoth(feed, log.events, feed[k]);
    }
    forall e | e in log.events
      ensures e.id in log.order && 1 <= log.order[e.id] <= |feed| && feed[log.order[e.id] - 1] == e
    {
      InBoth(feed, log.events, e);
      var k :| 0 <= k < |feed| && feed[k] == e;
      assert log.order[feed[k].id] == k + 1;
    }
  }

  /** A later log: everything already numbered keeps its event and its number. */
  ghost predicate Extends(log: Log, later: Log) {
    && Numbered(log) && Numbered(later)
    && (forall e :: e in log.events ==> e in later.events)
    && (forall id :: id in log.order ==> id in later.order && later.order[id] == log.order[id])
  }

  lemma {:induction false} AppendExtends(log: Log, e: Event)
    requires Numbered(log) && e.id !in log.order
    ensures Extends(log, Append(log, e))
  {
    hide IsFeed;
    AppendFeed(log, Feed(log), e);
  }

  lemma {:induction false} ExtendsIsTransitive(a: Log, b: Log, c: Log)
    requires Extends(a, b) && Extends(b, c)
    ensures Extends(a, c)
  {
    hide Numbered;
  }

  lemma {:induction false} FeedAt(log: Log, k: nat)
    requires Numbered(log) && k < |Feed(log)|
    ensures var e := Feed(log)[k]; e in log.events && e.id in log.order && log.order[e.id] == k + 1
  {
    hide IsFeed, Numbered;
    FeedIsIndexed(log, Feed(log));
  }

  lemma {:induction false} FeedOf(log: Log, e: Event)
    requires Numbered(log) && e in log.events
    ensures e.id in log.order && 1 <= log.order[e.id] <= |Feed(log)| && Feed(log)[log.order[e.id] - 1] == e
  {
    hide IsFeed, Numbered;
    FeedIsIndexed(log, Feed(log));
  }

  /** Later events come after all earlier ones in receipt order, whatever their clocks say. */
  lemma {:induction false} FeedIsPrefix(log: Log, later: Log)
    requires Extends(log, later)
    ensures Feed(log) <= Feed(later)
  {
    hide IsFeed, Numbered;
    forall k | 0 <= k < |Feed(log)| ensures k < |Feed(later)| && Feed(later)[k] == Feed(log)[k] {
      FeedAt(log, k);
      FeedOf(later, Feed(log)[k]);
    }
    if Feed(log) != [] {
      FeedAt(log, |Feed(log)| - 1);
      FeedOf(later, Feed(log)[|Feed(log)| - 1]);
    }
  }

  // ---------------------------------------------------------------------------------------
  // Migration 0007: number the events that already exist by (created_at, event_id).
  // ---------------------------------------------------------------------------------------

  predicate Before(d: Event, e: Event) {
    d.at < e.at || (d.at == e.at && d.id < e.id)
  }

  ghost predicate Ascending(s: seq<Event>) {
    forall i, j :: 0 <= i < j < |s| ==> Before(s[i], s[j])
  }

  function Insert(s: seq<Event>, e: Event): (r: seq<Event>) {
    if s == [] then [e]
    else if Before(e, s[0]) then [e] + s
    else [s[0]] + Insert(s[1..], e)
  }

  function ByTime(s: seq<Event>): (r: seq<Event>) {
    if s == [] then [] else Insert(ByTime(s[..|s| - 1]), s[|s| - 1])
  }

  function Migrate(events: seq<Event>): Log {
    var sorted := ByTime(events);
    Log(events, Positions(sorted), |sorted| + 1)
  }

  function Positions(s: seq<Event>): map<int, int> {
    if s == [] then map[] else Positions(s[..|s| - 1])[s[|s| - 1].id := |s|]
  }

  lemma {:induction false} InsertAdds(s: seq<Event>, e: Event)
    ensures multiset(Insert(s, e)) == multiset(s) + multiset{e}
  {
    if s != [] {
      InsertAdds(s[1..], e);
      assert s == [s[0]] + s[1..];
    }
  }

  lemma {:induction false} AscendingCons(e: Event, s: seq<Event>)
    requires Ascending(s) && forall k :: 0 <= k < |s| ==> Before(e, s[k])
    ensures Ascending([e] + s)
  {
    hide Before;
  }

  lemma {:induction false} InsertedIn(s: seq<Event>, e: Event, d: Event)
    requires d in Insert(s, e)
    ensures d == e || d in s
  {
    InsertAdds(s, e);
    assert d in multiset(Insert(s, e));
  }

  lemma {:induction false} InsertSorts(s: seq<Event>, e: Event)
    requires Ascending(s)
    requires forall k :: 0 <= k < |s| ==> s[k].id != e.id
    ensures Ascending(Insert(s, e))
    ensures multiset(Insert(s, e)) == multiset(s) + multiset{e}
  {
    InsertAdds(s, e);
    if s != [] {
      if Before(e, s[0]) {
        AscendingCons(e, s);
      } else {
        InsertSorts(s[1..], e);
        var t := Insert(s[1..], e);
        forall k | 0 <= k < |t| ensures Before(s[0], t[k]) {
          InsertedIn(s[1..], e, t[k]);
          if t[k] != e {
            var j :| 0 <= j < |s[1..]| && s[1..][j] == t[k];
            assert s[j + 1] == t[k];
          }
        }
        AscendingCons(s[0], t);
      }
    }
  }

  lemma {:induction false} ByTimeSorts(s: seq<Event>)
    requires DistinctIds(s)
    ensures Ascending(ByTime(s)) && multiset(ByTime(s)) == multiset(s)
  {
    if s != [] {
      var p := s[..|s| - 1];
      var e := s[|s| - 1];
      ByTimeSorts(p);
      assert s == p + [e];
      forall k | 0 <= k < |ByTime(p)| ensures ByTime(p)[k].id != e.id {
        InBoth(ByTime(p), p, ByTime(p)[k]);
        var j :| 0 <= j < |p| && p[j] == ByTime(p)[k];
        assert s[j].id != s[|s| - 1].id;
      }
      InsertSorts(ByTime(p), e);
    }
  }

  lemma {:induction false} PositionsAt(s: seq<Event>)
    requires DistinctIds(s)
    ensures forall k :: 0 <= k < |s| ==> s[k].id in Positions(s) && Positions(s)[s[k].id] == k + 1
    ensures forall id :: id in Positions(s) ==> exists k :: 0 <= k < |s| && s[k].id == id
  {
    if s != [] {
      var p := s[..|s| - 1];
      PositionsAt(p);
      assert Positions(s) == Positions(p)[s[|s| - 1].id := |s|];
      forall id | id in Positions(s) ensures exists k :: 0 <= k < |s| && s[k].id == id {
        if id == s[|s| - 1].id {
        } else {
          assert id in Positions(p);
          var k :| 0 <= k < |p| && p[k].id == id;
          assert s[k].id == id;
        }
      }
    }
  }

  lemma {:induction false} AscendingDistinct(s: seq<Event>, t: seq<Event>)
    requires Ascending(s) && multiset(s) == multiset(t) && DistinctIds(t)
    ensures DistinctIds(s)
  {
    forall i, j | 0 <= i < j < |s| ensures s[i].id != s[j].id {
      InBoth(s, t, s[i]);
      InBoth(s, t, s[j]);
      var a :| 0 <= a < |t| && t[a] == s[i];
      var b :| 0 <= b < |t| && t[b] == s[j];
      assert Before(s[i], s[j]);
      assert a != b;
    }
  }

  /** The migrated log is numbered, in business-time order. */
  lemma {:induction false} MigrationNumbers(events: seq<Event>)
    requires DistinctIds(events)
    ensures IsFeed(Migrate(events), ByTime(events)) && Ascending(ByTime(events))
    ensures Numbered(Migrate(events))
  {
    ByTimeSorts(events);
    AscendingDistinct(ByTime(events), events);
    PositionsAt(ByTime(events));
    assert IsFeed(Migrate(events), ByTime(events));
  }

  lemma {:induction false} SameHead(s: seq<Event>, t: seq<Event>)
    requires Ascending(s) && Ascending(t) && multiset(s) == multiset(t) && s != [] && t != []
    ensures s[0] == t[0]
  {
    InBoth(s, t, s[0]);
    InBoth(s, t, t[0]);
    var a :| 0 <= a < |t| && t[a] == s[0];
    var b :| 0 <= b < |s| && s[b] == t[0];
  }

  lemma {:induction false} AscendingUnique(s: seq<Event>, t: seq<Event>)
    requires Ascending(s) && Ascending(t) && multiset(s) == multiset(t)
    ensures s == t
  {
    assert |s| == |multiset(s)| == |multiset(t)| == |t|;
    if s != [] {
      SameHead(s, t);
      assert s == [s[0]] + s[1..] && t == [t[0]] + t[1..];
      assert multiset(s[1..]) == multiset(s) - multiset{s[0]};
      assert multiset(t[1..]) == multiset(t) - multiset{t[0]};
      AscendingUnique(s[1..], t[1..]);
    }
  }

  /** The numbering does not depend on the physical row order of the old events. */
  lemma {:induction false} MigrationIgnoresRowOrder(a: seq<Event>, b: seq<Event>)
    requires DistinctIds(a) && DistinctIds(b) && multiset(a) == multiset(b)
    ensures Migrate(a).order == Migrate(b).order && Migrate(a).next == Migrate(b).next
  {
    ByTimeSorts(a);
    ByTimeSorts(b);
    AscendingUnique(ByTime(a), ByTime(b));
  }
}
