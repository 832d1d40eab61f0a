/** The in-memory visitor tally behind `/api/visitors`: a process-wide list
    of visit records that POST appends to and GET summarises. Clock readings
    are passed in as instants, and the calendar day of an instant (the
    server's local day) is an injected function. */
module Visitors {
  import opened Wrappers

  /** A point in time, as read from the clock when a visit is recorded. */
  type Instant = int

  /** A calendar day key: two instants fall on the same day when their keys agree. */
  type Day = int

  datatype Record = Record(ip: string, userAgent: string, timestamp: Instant, page: string)

  /** The outcome of `request.json()` followed by `const { page } = body`:
      the body is not JSON, it is JSON `null` (destructuring it throws), or it
      is a JSON value whose `page` field may be absent. */
  datatype Body = Malformed | JsonNull | JsonValue(page: Option<string>)

  /** What POST reads from the request: the body, the platform's client
      address, and three headers (absent when the header is missing). */
  datatype Request = Request(
    body: Body,
    clientIp: Option<string>,
    forwardedFor: Option<string>,
    realIp: Option<string>,
    userAgent: Option<string>)

  /** The JSON GET answers with. */
  datatype Stats = Stats(total: nat, unique: nat, today: nat, recent: seq<Record>)

  /** How many records GET lists under `recent`. */
  const RecentCount := 10

  /** The address recorded for a request: the client address, else
      x-forwarded-for, else x-real-ip, each only when non-empty, else "unknown". */
  function IpOf(req: Request): (ip: string)
    ensures ip != ""
    ensures ip == "unknown" || Some(ip) in [req.clientIp, req.forwardedFor, req.realIp]
  {
    FirstTruthy([req.clientIp, req.forwardedFor, req.realIp], "unknown")
  }

  /** The user agent recorded for a request, "unknown" when absent or empty. */
  function UserAgentOf(req: Request): (ua: string)
    ensures ua != "" && (ua == "unknown" || req.userAgent == Some(ua))
  {
    FirstTruthy([req.userAgent], "unknown")
  }

  /** The page recorded: the body's `page` when it is a non-empty string, else "/". */
  function PageOf(page: Option<string>): (p: string)
    ensures p != "" && (p == "/" || page == Some(p))
  {
    FirstTruthy([page], "/")
  }

  /** The record POST appends for a parsed request received at `now`. */
  function RecordOf(req: Request, now: Instant): (r: Record)
    requires req.body.JsonValue?
    ensures r.timestamp == now
    ensures r.ip == (if Truthy(req.clientIp) then req.clientIp.value
                     else if Truthy(req.forwardedFor) then req.forwardedFor.value
                     else if Truthy(req.realIp) then req.realIp.value
                     else "unknown")
    ensures r.userAgent == if Truthy(req.userAgent) then req.userAgent.value else "unknown"
    ensures r.page == if Truthy(req.body.page) then req.body.page.value else "/"
    ensures r.ip != "" && r.userAgent != "" && r.page != ""
  {
    var hs := [req.clientIp, req.forwardedFor, req.realIp];
    assert hs[1..] == [req.forwardedFor, req.realIp] && hs[1..][1..] == [req.realIp];
    assert [req.userAgent][1..] == [] && [req.body.page][1..] == [];
    assert FirstTruthy(hs[1..][1..], "unknown") == if Truthy(req.realIp) then req.realIp.value else "unknown";
    assert FirstTruthy(hs[1..], "unknown") ==
      if Truthy(req.forwardedFor) then req.forwardedFor.value else FirstTruthy(hs[1..][1..], "unknown");
    Record(IpOf(req), UserAgentOf(req), now, PageOf(req.body.page))
  }

  /** The set of addresses that occur in `vs`. */
  function IpSet(vs: seq<Record>): (ips: set<string>)
    ensures forall k :: 0 <= k < |vs| ==> vs[k].ip in ips
  {
    if vs == [] then {} else IpSet(vs[..|vs| - 1]) + {vs[|vs| - 1].ip}
  }

  lemma {:induction false} IpSetMembers(vs: seq<Record>, ip: string)
    ensures ip in IpSet(vs) <==> exists i :: 0 <= i < |vs| && vs[i].ip == ip
  {
    if vs != [] {
      var init := vs[..|vs| - 1];
      IpSetMembers(init, ip);
      if ip in IpSet(init) {
        var i :| 0 <= i < |init| && init[i].ip == ip;
        assert vs[i].ip == ip;
      }
      if i :| 0 <= i < |vs| && vs[i].ip == ip {
        if i < |vs| - 1 {
          assert init[i].ip == ip;
        }
      }
    }
  }

  /** There are never more distinct addresses than records. */
  lemma {:induction false} IpSetBound(vs: seq<Record>)
    ensures |IpSet(vs)| <= |vs|
    ensures vs != [] ==> |IpSet(vs)| >= 1
  {
    if vs != [] {
      IpSetBound(vs[..|vs| - 1]);
    }
  }

  /** The positions of `vs` that hold a record dated `today`. */
  function DayPositions(vs: seq<Record>, today: Day, dayOf: Instant -> Day): set<int> {
    set i | 0 <= i < |vs| && dayOf(vs[i].timestamp) == today
  }

  /** Dropping the last record removes its position, if it was dated `today`, and no other. */
  lemma DayPositionsStep(vs: seq<Record>, today: Day, dayOf: Instant -> Day)
    requires vs != []
    ensures |DayPositions(vs, today, dayOf)| ==
              |DayPositions(vs[..|vs| - 1], today, dayOf)| + (if dayOf(vs[|vs| - 1].timestamp) == today then 1 else 0)
  {
    var n := |vs| - 1;
    var before := DayPositions(vs[..n], today, dayOf);
    var extra: set<int> := if dayOf(vs[n].timestamp) == today then {n} else {};
    assert DayPositions(vs, today, dayOf) == before + extra;
    assert n !in before;
  }

  /** The records of `vs` whose timestamp falls on `today`, one entry per position. */
  function OnDay(vs: seq<Record>, today: Day, dayOf: Instant -> Day): (ws: seq<Record>)
    ensures |ws| <= |vs|
    ensures |ws| == |DayPositions(vs, today, dayOf)|
    ensures forall k :: 0 <= k < |ws| ==> dayOf(ws[k].timestamp) == today
    ensures forall r :: r in vs && dayOf(r.timestamp) == today ==> r in ws
    ensures forall r :: r in ws ==> r in vs
  {
    if vs == [] then []
    else
      var n := |vs| - 1;
      var ws := OnDay(vs[..n], today, dayOf);
      DayPositionsStep(vs, today, dayOf);
      assert forall r :: r in vs ==> r in vs[..|vs| - 1] || r == vs[|vs| - 1];
      if dayOf(vs[|vs| - 1].timestamp) == today then ws + [vs[|vs| - 1]] else ws
  }

  /** `s` in reverse order. */
  function Reverse(s: seq<Record>): (r: seq<Record>)
    ensures |r| == |s|
  {
    if s == [] then [] else [s[|s| - 1]] + Reverse(s[..|s| - 1])
  }

  lemma {:induction false} ReverseIndex(s: seq<Record>, k: nat)
    requires k < |s|
    ensures Reverse(s)[k] == s[|s| - 1 - k]
  {
    if k > 0 {
      ReverseIndex(s[..|s| - 1], k - 1);
    }
  }

  /** `visitors.slice(-10).reverse()`: the last ten records, newest first. */
  function Recent(vs: seq<Record>): (r: seq<Record>)
    ensures |r| == if |vs| < RecentCount then |vs| else RecentCount
    ensures forall k :: 0 <= k < |r| ==> r[k] == vs[|vs| - 1 - k]
  {
    var tail := if |vs| <= RecentCount then vs else vs[|vs| - RecentCount..];
    forall k | 0 <= k < |tail| ensures Reverse(tail)[k] == vs[|vs| - 1 - k] {
      ReverseIndex(tail, k);
    }
    Reverse(tail)
  }

  /** What GET computes from the list, with `today` the day of the request. */
  function StatsOf(vs: seq<Record>, today: Day, dayOf: Instant -> Day): (s: Stats)
    ensures s.total == |vs|
    ensures s.unique == |set i | 0 <= i < |vs| :: vs[i].ip|
    ensures s.unique <= s.total && (s.unique == 0 <==> s.total == 0)
    ensures s.today == |DayPositions(vs, today, dayOf)| && s.today <= s.total
    ensures |s.recent| == if |vs| < RecentCount then |vs| else RecentCount
    ensures forall k :: 0 <= k < |s.recent| ==> s.recent[k] == vs[|vs| - 1 - k]
  {
    IpSetBound(vs);
    forall ip ensures ip in IpSet(vs) <==> ip in (set i | 0 <= i < |vs| :: vs[i].ip) {
      IpSetMembers(vs, ip);
    }
    assert IpSet(vs) == set i | 0 <= i < |vs| :: vs[i].ip;
    Stats(|vs|, |IpSet(vs)|, |OnDay(vs, today, dayOf)|, Recent(vs))
  }

  /** Appending a record adds a distinct address exactly when no earlier record has it. */
  lemma UniqueAfterAppend(vs: seq<Record>, r: Record)
    ensures |IpSet(vs + [r])| == |IpSet(vs)| + (if exists i :: 0 <= i < |vs| && vs[i].ip == r.ip then 0 else 1)
  {
    var ws := vs + [r];
    assert ws[..|ws| - 1] == vs;
    assert IpSet(ws) == IpSet(vs) + {r.ip};
    IpSetMembers(vs, r.ip);
    if r.ip in IpSet(vs) {
      assert IpSet(vs) + {r.ip} == IpSet(vs);
    } else {
      assert |IpSet(vs) + {r.ip}| == |IpSet(vs)| + 1;
    }
  }

  /** Appending a record adds a visit today exactly when it is dated today. */
  lemma TodayAfterAppend(vs: seq<Record>, r: Record, today: Day, dayOf: Instant -> Day)
    ensures |OnDay(vs + [r], today, dayOf)| == |OnDay(vs, today, dayOf)| + (if dayOf(r.timestamp) == today then 1 else 0)
  {
    var ws := vs + [r];
    assert ws[..|ws| - 1] == vs;
  }

  /** Appending a record puts it first in `recent`, before the previous
      recent records, keeping at most ten. */
  lemma RecentAfterAppend(vs: seq<Record>, r: Record)
    ensures Recent(vs + [r]) ==
              ([r] + Recent(vs))[..if |vs| + 1 < RecentCount then |vs| + 1 else RecentCount]
  {
    var ws := vs + [r];
    var n := if |vs| + 1 < RecentCount then |vs| + 1 else RecentCount;
    var expected := ([r] + Recent(vs))[..n];
    forall k | 0 <= k < n ensures Recent(ws)[k] == expected[k] {
      if k > 0 {
        assert expected[k] == Recent(vs)[k - 1];
      }
    }
  }

  /** How one POST changes what GET reports: one more record, one more
      distinct address exactly when the address is new, one more visit today
      exactly when the record is dated today, and the new record first in
      `recent`, followed by the previous ones up to ten. */
  lemma StatsAfterAppend(vs: seq<Record>, r: Record, today: Day, dayOf: Instant -> Day)
    ensures StatsOf(vs + [r], today, dayOf).total == StatsOf(vs, today, dayOf).total + 1
    ensures StatsOf(vs + [r], today, dayOf).unique ==
              StatsOf(vs, today, dayOf).unique + (if exists i :: 0 <= i < |vs| && vs[i].ip == r.ip then 0 else 1)
    ensures StatsOf(vs + [r], today, dayOf).today ==
              StatsOf(vs, today, dayOf).today + (if dayOf(r.timestamp) == today then 1 else 0)
    ensures StatsOf(vs + [r], today, dayOf).recent[0] == r
    ensures StatsOf(vs + [r], today, dayOf).recent ==
              ([r] + StatsOf(vs, today, dayOf).recent)[..if |vs| + 1 < RecentCount then |vs| + 1 else RecentCount]
  {
    UniqueAfterAppend(vs, r);
    TodayAfterAppend(vs, r, today, dayOf);
    RecentAfterAppend(vs, r);
    assert StatsOf(vs + [r], today, dayOf).recent == Recent(vs + [r]);
  }

  /** Three visits from exactly two distinct addresses, in any arrangement:
      a total of three and two distinct visitors. */
  lemma ThreeVisitsTwoAddresses(a: Record, b: Record, c: Record, today: Day, dayOf: Instant -> Day)
    requires |{a.ip, b.ip, c.ip}| == 2
    ensures StatsOf([a, b, c], today, dayOf).total == 3
    ensures StatsOf([a, b, c], today, dayOf).unique == 2
  {
    var vs := [a, b, c];
    assert (set i | 0 <= i < |vs| :: vs[i].ip) == {a.ip, b.ip, c.ip} by {
      assert vs[0].ip == a.ip && vs[1].ip == b.ip && vs[2].ip == c.ip;
    }
  }

  /** The process-wide visitor list. */
  class VisitorStore {
    var visitors: seq<Record>

    /** The list is empty when the process starts. */
    constructor ()
      ensures visitors == []
    {
      visitors := [];
    }

    /** POST: parse the body, then append one record stamped `now`. A body
        that fails to parse (or destructure) leaves the list as it was and
        answers `success: false`. */
    method Post(req: Request, now: Instant) returns (success: bool)
      modifies this
      ensures success <==> req.body.JsonValue?
      ensures success ==> visitors == old(visitors) + [RecordOf(req, now)]
      ensures !success ==> visitors == old(visitors)
    {
      if !req.body.JsonValue? {
        return false;
      }
      visitors := visitors + [RecordOf(req, now)];
      success := true;
    }

    /** GET: the statistics of the current list, with today the day of `now`.
        The list is not modified, so two GETs with no POST between them agree on
        total, unique and recent, and also on today when their `now` falls on the same day. */
    method Get(now: Instant, dayOf: Instant -> Day) returns (s: Stats)
      ensures s == StatsOf(visitors, dayOf(now), dayOf)
      ensures s.total == |visitors|
    {
      s := StatsOf(visitors, dayOf(now), dayOf);
    }
  }

  /** A client of the store: after a successful POST, GET reports the new
      record first in `recent` and counts it in the total. */
  method PostThenGet(store: VisitorStore, req: Request, now: Instant, dayOf: Instant -> Day)
    returns (success: bool, s: Stats)
    modifies store
    ensures success <==> req.body.JsonValue?
    ensures s == StatsOf(store.visitors, dayOf(now), dayOf)
    ensures success ==> s.total == |old(store.visitors)| + 1 && s.recent[0] == RecordOf(req, now)
    ensures !success ==> store.visitors == old(store.visitors) && s.total == |old(store.visitors)|
  {
    success := store.Post(req, now);
    s := store.Get(now, dayOf);
    if success {
      StatsAfterAppend(old(store.visitors), RecordOf(req, now), dayOf(now), dayOf);
    }
  }
}
