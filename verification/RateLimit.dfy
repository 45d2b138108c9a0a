/**
 * Fixed-window rate limiting: the database form, the in-memory form, and the
 * window arithmetic on plain hit times that both of them refine. Times are
 * milliseconds of one clock.
 */
module RateLimit {
  import opened Prelude

  datatype Config = Config(ttl: nat, limit: nat, blockDuration: nat)

  // ----- hit times of one key -----

  ghost predicate Ordered(ts: seq<nat>) {
    forall i, j | 0 <= i < j < |ts| :: ts[i] <= ts[j]
  }

  /** When the window of the last hit was opened: by the first hit at or after the end of the previous window. */
  function Opened(ts: seq<nat>, ttl: nat): nat
    requires ts != []
  {
    var last := ts[|ts| - 1];
    if |ts| == 1 || last >= Opened(ts[..|ts| - 1], ttl) + ttl then last else Opened(ts[..|ts| - 1], ttl)
  }

  function CountFrom(ts: seq<nat>, from: nat): nat {
    if ts == [] then 0 else CountFrom(ts[..|ts| - 1], from) + if ts[|ts| - 1] >= from then 1 else 0
  }

  /** The number of the last hit within its window: how many hits there are since the window was opened. */
  function HitNumber(ts: seq<nat>, ttl: nat): nat
    requires ts != []
  {
    CountFrom(ts, Opened(ts, ttl))
  }

  lemma {:induction false} WindowBounds(ts: seq<nat>, ttl: nat)
    requires ts != [] && Ordered(ts) && ttl > 0
    ensures Opened(ts, ttl) <= ts[|ts| - 1] < Opened(ts, ttl) + ttl
    ensures forall i | 0 <= i < |ts| :: ts[i] < Opened(ts, ttl) + ttl
  {
    if |ts| > 1 {
      WindowBounds(ts[..|ts| - 1], ttl);
    }
  }

  lemma {:induction false} CountNone(ts: seq<nat>, from: nat)
    requires forall i | 0 <= i < |ts| :: ts[i] < from
    ensures CountFrom(ts, from) == 0
  {
    if ts != [] {
      CountNone(ts[..|ts| - 1], from);
    }
  }

  /** A hit at or after the end of the window is number one of a new window; otherwise it is the next number. */
  lemma NextHit(ts: seq<nat>, t: nat, ttl: nat)
    requires Ordered(ts + [t]) && ttl > 0
    ensures ts == [] ==> Opened([t], ttl) == t && HitNumber([t], ttl) == 1
    ensures ts != [] && t >= Opened(ts, ttl) + ttl ==> Opened(ts + [t], ttl) == t && HitNumber(ts + [t], ttl) == 1
    ensures ts != [] && t < Opened(ts, ttl) + ttl ==>
              Opened(ts + [t], ttl) == Opened(ts, ttl) && HitNumber(ts + [t], ttl) == HitNumber(ts, ttl) + 1
  {
    var us := ts + [t];
    assert us[..|us| - 1] == ts;
    if ts == [] {
      assert us == [t];
      assert CountFrom(us[..0], t) == 0;
    } else {
      assert Ordered(ts) by { assert forall i | 0 <= i < |ts| :: ts[i] == us[i]; }
      WindowBounds(ts, ttl);
      if t >= Opened(ts, ttl) + ttl {
        CountNone(ts, t);
      } else {
        assert t >= ts[|ts| - 1] by { assert us[|ts| - 1] <= us[|ts|]; }
      }
    }
  }

  // ----- the database limiter -----

  datatype Row = Row(totalHits: nat, expiresAt: nat, blockedUntil: Option<nat>)

  datatype Report = Report(totalHits: nat, timeToExpire: nat, isBlocked: bool, timeToBlockExpire: nat)

  function EffectiveBlock(cfg: Config): nat {
    Max(1, if cfg.blockDuration != 0 then cfg.blockDuration else cfg.ttl)
  }

  /** INSERT ... ON DUPLICATE KEY UPDATE; later assignments see the new totalHits and the old expiresAt. */
  function Upsert(cfg: Config, row: Option<Row>, now: nat): Row {
    match row
    case None => Row(1, now + cfg.ttl, None)
    case Some(r) =>
      var totalHits := if r.expiresAt <= now then 1 else r.totalHits + 1;
      var blockedUntil :=
        if r.expiresAt <= now then None
        else if totalHits > cfg.limit then
          if r.blockedUntil.Some? && r.blockedUntil.value > now then r.blockedUntil else Some(now + EffectiveBlock(cfg))
        else r.blockedUntil;
      Row(totalHits, if r.expiresAt <= now then now + cfg.ttl else r.expiresAt, blockedUntil)
  }

  /** Whole seconds until a time, rounded up, not below zero. */
  function SecondsUntil(t: nat, now: nat): (s: nat)
    ensures t <= now ==> s == 0
    ensures t > now ==> now + 1000 * (s - 1) < t <= now + 1000 * s
  {
    if t <= now then 0 else (t - now + 999) / 1000
  }

  function ReportOf(r: Row, now: nat): Report {
    Report(r.totalHits, SecondsUntil(r.expiresAt, now), r.blockedUntil.Some? && r.blockedUntil.value > now,
           if r.blockedUntil.Some? then SecondsUntil(r.blockedUntil.value, now) else 0)
  }

  /** A day in milliseconds. */
  const DAY := 24 * 60 * 60 * 1000

  predicate Stale(r: Row, now: nat) {
    r.expiresAt + DAY < now && (r.blockedUntil.None? || r.blockedUntil.value < now)
  }

  function RowAt(rows: map<string, Row>, key: string): Option<Row> {
    if key in rows then Some(rows[key]) else None
  }

  class DatabaseLimiter {
    var rows: map<string, Row>

    constructor ()
      ensures rows == map[]
    {
      rows := map[];
    }

    /**
     * Counts the hit in the live window of its key or in a new one and reports the row;
     * a new window starts unblocked, and a hit past the limit in a live one is blocked.
     */
    method Increment(key: string, cfg: Config, now: nat) returns (report: Report)
      modifies this
      ensures rows == old(rows)[key := Upsert(cfg, RowAt(old(rows), key), now)]
      ensures report == ReportOf(rows[key], now)
      ensures var live := key in old(rows) && old(rows)[key].expiresAt > now;
              && report.totalHits == (if live then old(rows)[key].totalHits + 1 else 1)
              && rows[key].expiresAt == (if live then old(rows)[key].expiresAt else now + cfg.ttl)
              && (!live ==> !report.isBlocked && report.timeToBlockExpire == 0)
              && (live && report.totalHits > cfg.limit ==> report.isBlocked)
      ensures var end := rows[key].expiresAt;
              if end <= now then report.timeToExpire == 0
              else now + 1000 * (report.timeToExpire - 1) < end <= now + 1000 * report.timeToExpire
      ensures var end := rows[key].blockedUntil;
              && (report.isBlocked <==> end.Some? && end.value > now)
              && (if !report.isBlocked then report.timeToBlockExpire == 0
                  else now + 1000 * (report.timeToBlockExpire - 1) < end.value <= now + 1000 * report.timeToBlockExpire)
      ensures forall k | k != key :: RowAt(rows, k) == RowAt(old(rows), k)
    {
      if key !in rows {
        rows := rows[key := Row(1, now + cfg.ttl, None)];
      } else {
        var row := rows[key];
        var over := row.expiresAt <= now;
        row := row.(totalHits := if over then 1 else row.totalHits + 1);
        if over {
          row := row.(blockedUntil := None);
        } else if row.totalHits > cfg.limit && !(row.blockedUntil.Some? && row.blockedUntil.value > now) {
          row := row.(blockedUntil := Some(now + EffectiveBlock(cfg)));
        }
        if over {
          row := row.(expiresAt := now + cfg.ttl);
        }
        rows := rows[key := row];
      }
      report := ReportOf(rows[key], now);
    }

    /** Whatever is deleted had its window end more than a day ago and blocks nobody; the rest stays as it is. */
    method CleanupExpiredState(now: nat)
      modifies this
      ensures rows == map k | k in old(rows) && !Stale(old(rows)[k], now) :: old(rows)[k]
      ensures forall k | k in rows :: k in old(rows) && rows[k] == old(rows)[k]
      ensures forall k | k in old(rows) ::
                var row := old(rows)[k];
                k !in rows <==>
                  row.expiresAt + 86_400_000 < now && !(row.blockedUntil.Some? && row.blockedUntil.value >= now)
      ensures forall k :: SameRow(RowAt(old(rows), k), RowAt(rows, k), now)
    {
      rows := map k | k in rows && !Stale(rows[k], now) :: rows[k];
    }
  }

  // ----- the in-memory limiter -----

  datatype Quota = Quota(count: nat, resetTime: nat, blocked: bool)

  function Use(windowMs: nat, maxRequests: nat, quotas: map<string, Quota>, key: string, now: nat): Quota {
    var open := if key !in quotas || now >= quotas[key].resetTime then Quota(0, now + windowMs, false) else quotas[key];
    open.(count := open.count + 1, blocked := open.blocked || open.count + 1 > maxRequests)
  }

  /** The window and the limit that the settings come down to. */
  function WindowOf(windowMs: nat): nat {
    if windowMs == 0 then 60_000 else windowMs
  }

  function LimitOf(maxRequests: nat): nat {
    if maxRequests == 0 then 100 else maxRequests
  }

  class MemoryLimiter {
    const windowMs: nat
    const maxRequests: nat
    var quotas: map<string, Quota>

    /** A missing or zero setting falls back on one minute or a hundred requests, so neither field is ever zero. */
    constructor (windowMs: nat, maxRequests: nat)
      ensures this.windowMs == WindowOf(windowMs) > 0 && this.maxRequests == LimitOf(maxRequests) > 0 && quotas == map[]
    {
      this.windowMs := if windowMs != 0 then windowMs else 60_000;
      this.maxRequests := if maxRequests != 0 then maxRequests else 100;
      quotas := map[];
    }

    /** Counts the request and returns what is left of the quota; nothing is refused. */
    method Handle(key: string, now: nat) returns (remaining: nat)
      modifies this
      ensures quotas == old(quotas)[key := Use(windowMs, maxRequests, old(quotas), key, now)]
      ensures remaining == Max(0, maxRequests - quotas[key].count)
    {
      var quota: Quota;
      if key !in quotas || now >= quotas[key].resetTime {
        quota := Quota(0, now + windowMs, false);
        quotas := quotas[key := quota];
      } else {
        quota := quotas[key];
      }
      quota := quota.(count := quota.count + 1);
      remaining := Max(0, maxRequests - quota.count);
      if quota.count > maxRequests {
        quota := quota.(blocked := true);
      }
      quotas := quotas[key := quota];
    }

    /** Deletes the expired quotas one by one. */
    method CleanupExpiredQuotas(now: nat) returns (cleaned: nat)
      modifies this
      ensures quotas == map k | k in old(quotas) && now < old(quotas)[k].resetTime :: old(quotas)[k]
      ensures cleaned == |old(quotas)| - |quotas|
    {
      cleaned := 0;
      var todo := quotas.Keys;
      while todo != {}
        invariant todo <= quotas.Keys <= old(quotas).Keys
        invariant forall k | k in quotas :: quotas[k] == old(quotas)[k]
        invariant forall k | k in old(quotas) && k !in todo :: k in quotas <==> now < old(quotas)[k].resetTime
        invariant cleaned == |old(quotas)| - |quotas|
        decreases todo
      {
        var k :| k in todo;
        if now >= quotas[k].resetTime {
          ghost var before := quotas;
          quotas := quotas - {k};
          assert before.Keys == quotas.Keys + {k};
          assert |before.Keys| == |quotas.Keys| + 1;
          cleaned := cleaned + 1;
        }
        todo := todo - {k};
      }
    }
  }

  // ----- timed runs -----

  datatype Event = Hit(key: string, at: nat) | Cleanup(at: nat)

  ghost predicate Clocked(es: seq<Event>) {
    forall i, j | 0 <= i < j < |es| :: es[i].at <= es[j].at
  }

  /** The times at which a key was hit. */
  function Times(es: seq<Event>, key: string): seq<nat> {
    if es == [] then []
    else
      var e := es[|es| - 1];
      Times(es[..|es| - 1], key) + if e.Hit? && e.key == key then [e.at] else []
  }

  /** The rows after a run from an empty table. */
  function DatabaseAfter(cfg: Config, es: seq<Event>): map<string, Row> {
    if es == [] then map[]
    else
      var rows := DatabaseAfter(cfg, es[..|es| - 1]);
      match es[|es| - 1]
      case Hit(key, at) => rows[key := Upsert(cfg, RowAt(rows, key), at)]
      case Cleanup(at) => map k | k in rows && !Stale(rows[k], at) :: rows[k]
  }

  function MemoryAfter(cfg: Config, es: seq<Event>): map<string, Quota> {
    if es == [] then map[]
    else
      var quotas := MemoryAfter(cfg, es[..|es| - 1]);
      match es[|es| - 1]
      case Hit(key, at) => quotas[key := Use(WindowOf(cfg.ttl), LimitOf(cfg.limit), quotas, key, at)]
      case Cleanup(at) => map k | k in quotas && at < quotas[k].resetTime :: quotas[k]
  }

  /** What the database limiter reports for a hit after the run `es`. */
  function DatabaseHit(cfg: Config, es: seq<Event>, key: string, at: nat): Report {
    ReportOf(Upsert(cfg, RowAt(DatabaseAfter(cfg, es), key), at), at)
  }

  function MemoryHit(cfg: Config, es: seq<Event>, key: string, at: nat): nat {
    Use(WindowOf(cfg.ttl), LimitOf(cfg.limit), MemoryAfter(cfg, es), key, at).count
  }

  /** Whether the in-memory limiter marks the client of a hit after the run `es`. */
  predicate MemoryMarks(cfg: Config, es: seq<Event>, key: string, at: nat) {
    Use(WindowOf(cfg.ttl), LimitOf(cfg.limit), MemoryAfter(cfg, es), key, at).blocked
  }

  /** The row agrees with the hit times; a missing row means that the window is over. */
  ghost predicate RowAgrees(cfg: Config, row: Option<Row>, ts: seq<nat>, now: nat) {
    match row
    case None => ts == [] || Opened(ts, cfg.ttl) + cfg.ttl <= now
    case Some(r) =>
      ts != [] && r.totalHits == HitNumber(ts, cfg.ttl) >= 1 && r.expiresAt == Opened(ts, cfg.ttl) + cfg.ttl
      && (r.totalHits <= Max(1, cfg.limit) ==> r.blockedUntil.None?)
  }

  ghost predicate QuotaAgrees(cfg: Config, quotas: map<string, Quota>, key: string, ts: seq<nat>, now: nat) {
    if key in quotas
    then ts != [] && quotas[key].count == HitNumber(ts, cfg.ttl)
        && quotas[key].resetTime == Opened(ts, cfg.ttl) + cfg.ttl
         && (quotas[key].blocked <==> quotas[key].count > LimitOf(cfg.limit))
    else ts == [] || Opened(ts, cfg.ttl) + cfg.ttl <= now
  }

  lemma UpsertAgrees(cfg: Config, row: Option<Row>, ts: seq<nat>, now: nat)
    requires cfg.ttl > 0 && Ordered(ts + [now]) && RowAgrees(cfg, row, ts, now)
    ensures RowAgrees(cfg, Some(Upsert(cfg, row, now)), ts + [now], now)
    ensures ReportOf(Upsert(cfg, row, now), now).totalHits == HitNumber(ts + [now], cfg.ttl)
    ensures ReportOf(Upsert(cfg, row, now), now).isBlocked <==> HitNumber(ts + [now], cfg.ttl) > Max(1, cfg.limit)
  {
    hide Opened, HitNumber, SecondsUntil;
    NextHit(ts, now, cfg.ttl);
    assert ts == [] ==> ts + [now] == [now];
  }

  lemma UseAgrees(cfg: Config, quotas: map<string, Quota>, key: string, ts: seq<nat>, now: nat)
    requires cfg.ttl > 0 && Ordered(ts + [now]) && QuotaAgrees(cfg, quotas, key, ts, now)
    ensures QuotaAgrees(cfg, quotas[key := Use(WindowOf(cfg.ttl), LimitOf(cfg.limit), quotas, key, now)],
                        key, ts + [now], now)
    ensures Use(WindowOf(cfg.ttl), LimitOf(cfg.limit), quotas, key, now).count == HitNumber(ts + [now], cfg.ttl)
    ensures Use(WindowOf(cfg.ttl), LimitOf(cfg.limit), quotas, key, now).blocked
            <==> HitNumber(ts + [now], cfg.ttl) > LimitOf(cfg.limit)
  {
    hide Opened, HitNumber;
    NextHit(ts, now, cfg.ttl);
    assert ts == [] ==> ts + [now] == [now];
  }

  lemma {:induction false} TimesOrdered(es: seq<Event>, key: string, now: nat)
    requires Clocked(es) && forall e | e in es :: e.at <= now
    ensures Ordered(Times(es, key) + [now])
  {
    if es != [] {
      var before := es[..|es| - 1];
      var last := es[|es| - 1];
      assert forall i | 0 <= i < |before| :: before[i] == es[i];
      TimesOrdered(before, key, last.at);
      var ts := Times(before, key);
      assert forall i | 0 <= i < |ts| :: (ts + [last.at])[i] <= (ts + [last.at])[|ts|];
      assert last.at <= now;
      var us := Times(es, key) + [now];
      forall i, j | 0 <= i < j < |us| ensures us[i] <= us[j] {
        assert us[i] == (ts + [last.at])[i] && (ts + [last.at])[i] <= last.at;
        if j < |us| - 1 { assert us[j] == (ts + [last.at])[j]; }
      }
    }
  }

  lemma {:induction false} DatabaseAgrees(cfg: Config, es: seq<Event>, key: string, now: nat)
    requires cfg.ttl > 0 && Clocked(es) && forall e | e in es :: e.at <= now
    ensures RowAgrees(cfg, RowAt(DatabaseAfter(cfg, es), key), Times(es, key), now)
  {
    hide Upsert, Use, Opened, HitNumber;
    if es != [] {
      var before := es[..|es| - 1];
      var last := es[|es| - 1];
      assert forall i | 0 <= i < |before| :: before[i] == es[i];
      DatabaseAgrees(cfg, before, key, last.at);
      assert last in es && last.at <= now;
      var ts := Times(before, key);
      if last.Hit? && last.key == key {
        TimesOrdered(before, key, last.at);
        UpsertAgrees(cfg, RowAt(DatabaseAfter(cfg, before), key), ts, last.at);
      } else {
        assert Times(es, key) == ts;
      }
    }
  }

  lemma {:induction false} MemoryAgrees(cfg: Config, es: seq<Event>, key: string, now: nat)
    requires cfg.ttl > 0 && Clocked(es) && forall e | e in es :: e.at <= now
    ensures QuotaAgrees(cfg, MemoryAfter(cfg, es), key, Times(es, key), now)
  {
    hide Upsert, Use, Opened, HitNumber;
    if es != [] {
      var before := es[..|es| - 1];
      var last := es[|es| - 1];
      assert forall i | 0 <= i < |before| :: before[i] == es[i];
      MemoryAgrees(cfg, before, key, last.at);
      assert last in es && last.at <= now;
      var ts := Times(before, key);
      if last.Hit? && last.key == key {
        TimesOrdered(before, key, last.at);
        UseAgrees(cfg, MemoryAfter(cfg, before), key, ts, last.at);
      } else {
        assert Times(es, key) == ts;
      }
    }
  }

  /** Both limiters agree with the plain hit times of every key after every run, cleanups included. */
  lemma LimitersAgree(cfg: Config, es: seq<Event>, key: string, now: nat)
    requires cfg.ttl > 0 && Clocked(es) && forall e | e in es :: e.at <= now
    ensures RowAgrees(cfg, RowAt(DatabaseAfter(cfg, es), key), Times(es, key), now)
    ensures QuotaAgrees(cfg, MemoryAfter(cfg, es), key, Times(es, key), now)
  {
    DatabaseAgrees(cfg, es, key, now);
    MemoryAgrees(cfg, es, key, now);
  }

  /** The reported seconds are the least whole number that reaches the end of the window of the hit. */
  lemma WindowEndReported(cfg: Config, es: seq<Event>, key: string, at: nat)
    requires cfg.ttl > 0 && Clocked(es) && forall e | e in es :: e.at <= at
    ensures var end := Opened(Times(es, key) + [at], cfg.ttl) + cfg.ttl;
            var seconds := DatabaseHit(cfg, es, key, at).timeToExpire;
            at + 1000 * (seconds - 1) < end <= at + 1000 * seconds
  {
    hide Upsert, Opened, HitNumber;
    LimitersAgree(cfg, es, key, at);
    TimesOrdered(es, key, at);
    UpsertAgrees(cfg, RowAt(DatabaseAfter(cfg, es), key), Times(es, key), at);
    var ts := Times(es, key) + [at];
    WindowBounds(ts, cfg.ttl);
    assert ts[|ts| - 1] == at;
  }

  /**
   * Refinement: for every timed sequence of hits and cleanups, both limiters report for
   * each hit its number in the fixed window, the database limiter blocks exactly the
   * hits past the limit, for any block duration, and the in-memory one marks the client
   * exactly on those; the reported seconds reach the end of the window. A limit of 0
   * acts as 1 in the database and as 100 in memory.
   */
  lemma LimitersRefineWindow(cfg: Config, es: seq<Event>, key: string, at: nat)
    requires cfg.ttl > 0 && Clocked(es) && forall e | e in es :: e.at <= at
    ensures DatabaseHit(cfg, es, key, at).totalHits == MemoryHit(cfg, es, key, at)
            == HitNumber(Times(es, key) + [at], cfg.ttl)
    ensures DatabaseHit(cfg, es, key, at).isBlocked <==> HitNumber(Times(es, key) + [at], cfg.ttl) > Max(1, cfg.limit)
    ensures var end := Opened(Times(es, key) + [at], cfg.ttl) + cfg.ttl;
            var seconds := DatabaseHit(cfg, es, key, at).timeToExpire;
            at + 1000 * (seconds - 1) < end <= at + 1000 * seconds
    ensures MemoryMarks(cfg, es, key, at) <==> HitNumber(Times(es, key) + [at], cfg.ttl) > LimitOf(cfg.limit)
    ensures cfg.limit >= 1 ==> (MemoryMarks(cfg, es, key, at) <==> DatabaseHit(cfg, es, key, at).isBlocked)
  {
    hide Upsert, Use, Opened, HitNumber, RowAgrees, QuotaAgrees;
    WindowEndReported(cfg, es, key, at);
    LimitersAgree(cfg, es, key, at);
    TimesOrdered(es, key, at);
    UpsertAgrees(cfg, RowAt(DatabaseAfter(cfg, es), key), Times(es, key), at);
    UseAgrees(cfg, MemoryAfter(cfg, es), key, Times(es, key), at);
  }

  // ----- when a block ends, from the hit times alone -----

  /**
   * None in a new window; a hit past the limit keeps a running block and otherwise starts
   * one; any other hit leaves things as they are.
   */
  function BlockEnd(cfg: Config, ts: seq<nat>): Option<nat> {
    if ts == [] || HitNumber(ts, cfg.ttl) == 1 then None
    else
      var before := BlockEnd(cfg, ts[..|ts| - 1]);
      var t := ts[|ts| - 1];
      if HitNumber(ts, cfg.ttl) > cfg.limit && !Later(before, t) then Some(t + EffectiveBlock(cfg)) else before
  }

  predicate Later(end: Option<nat>, t: nat) {
    end.Some? && end.value > t
  }

  /** The row knows the end of the block; a missing row means that no block still runs. */
  ghost predicate RowBlocks(cfg: Config, row: Option<Row>, ts: seq<nat>, now: nat) {
    match row
    case None => !Later(BlockEnd(cfg, ts), now)
    case Some(r) => r.blockedUntil == BlockEnd(cfg, ts)
  }

  lemma UpsertEnds(cfg: Config, row: Option<Row>, ts: seq<nat>, now: nat)
    requires cfg.ttl > 0 && Ordered(ts + [now]) && RowAgrees(cfg, row, ts, now) && RowBlocks(cfg, row, ts, now)
    ensures RowBlocks(cfg, Some(Upsert(cfg, row, now)), ts + [now], now)
  {
    hide Opened, HitNumber;
    NextHit(ts, now, cfg.ttl);
    assert ts == [] ==> ts + [now] == [now];
    assert (ts + [now])[..|ts + [now]| - 1] == ts;
  }

  /** After every run, cleanups included, the row of a key tells when its block ends. */
  lemma {:induction false} BlocksAgree(cfg: Config, es: seq<Event>, key: string, now: nat)
    requires cfg.ttl > 0 && Clocked(es) && forall e | e in es :: e.at <= now
    ensures RowBlocks(cfg, RowAt(DatabaseAfter(cfg, es), key), Times(es, key), now)
  {
    hide Upsert, BlockEnd;
    if es == [] {
      assert RowBlocks(cfg, None, [], now) by { NoBlock(cfg, now); }
    } else {
      var before, last := es[..|es| - 1], es[|es| - 1];
      assert forall i | 0 <= i < |before| :: before[i] == es[i];
      BlocksAgree(cfg, before, key, last.at);
      assert last in es && last.at <= now;
      if last.Hit? && last.key == key {
        TimesOrdered(before, key, last.at);
        LimitersAgree(cfg, before, key, last.at);
        UpsertEnds(cfg, RowAt(DatabaseAfter(cfg, before), key), Times(before, key), last.at);
      } else {
        assert Times(es, key) == Times(before, key);
      }
    }
  }

  lemma NoBlock(cfg: Config, now: nat)
    ensures !Later(BlockEnd(cfg, []), now)
  {
  }

  /** The first hit past the limit starts a block of the configured length, or of the window when none is configured. */
  lemma BlockStartsWithFirstExcess(cfg: Config, es: seq<Event>, key: string, at: nat)
    requires cfg.ttl > 0 && Clocked(es) && forall e | e in es :: e.at <= at
    requires HitNumber(Times(es, key) + [at], cfg.ttl) == Max(1, cfg.limit) + 1
    ensures var length := if cfg.blockDuration > 0 then cfg.blockDuration else cfg.ttl;
            DatabaseHit(cfg, es, key, at).timeToBlockExpire == SecondsUntil(at + length, at)
  {
    hide Opened, HitNumber, SecondsUntil;
    LimitersAgree(cfg, es, key, at);
    TimesOrdered(es, key, at);
    var ts := Times(es, key);
    NextHit(ts, at, cfg.ttl);
    assert ts == [] ==> ts + [at] == [at];
  }

  function WithoutCleanups(es: seq<Event>): seq<Event> {
    if es == [] then []
    else WithoutCleanups(es[..|es| - 1]) + if es[|es| - 1].Hit? then [es[|es| - 1]] else []
  }

  lemma {:induction false} SameTimes(es: seq<Event>, key: string)
    ensures Times(WithoutCleanups(es), key) == Times(es, key)
  {
    if es != [] {
      var before, last := es[..|es| - 1], es[|es| - 1];
      SameTimes(before, key);
      var kept := WithoutCleanups(before);
      if last.Hit? {
        assert (kept + [last])[..|kept|] == kept;
      } else {
        assert WithoutCleanups(es) == kept;
      }
    }
  }

  lemma {:induction false} StaysClocked(es: seq<Event>)
    requires Clocked(es)
    ensures forall e | e in WithoutCleanups(es) :: e in es
    ensures Clocked(WithoutCleanups(es))
  {
    if es != [] {
      var before, last := es[..|es| - 1], es[|es| - 1];
      assert forall i | 0 <= i < |before| :: before[i] == es[i];
      StaysClocked(before);
      var kept := WithoutCleanups(before);
      forall i | 0 <= i < |kept|
        ensures kept[i] in es && kept[i].at <= last.at
      {
        assert kept[i] in before;
      }
      assert WithoutCleanups(es) == if last.Hit? then kept + [last] else kept;
    }
  }

  predicate Over(row: Option<Row>, now: nat) {
    row.Some? ==> row.value.expiresAt <= now
  }

  /** Both rows are the same, or neither has any effect on a hit at that time. */
  predicate SameRow(a: Option<Row>, b: Option<Row>, now: nat) {
    a == b || (Over(a, now) && Over(b, now))
  }

  lemma SameUpsert(cfg: Config, a: Option<Row>, b: Option<Row>, now: nat)
    requires SameRow(a, b, now)
    ensures Upsert(cfg, a, now) == Upsert(cfg, b, now)
  {
  }

  lemma {:induction false} SameRows(cfg: Config, es: seq<Event>, key: string, now: nat)
    requires Clocked(es) && forall e | e in es :: e.at <= now
    ensures SameRow(RowAt(DatabaseAfter(cfg, es), key), RowAt(DatabaseAfter(cfg, WithoutCleanups(es)), key), now)
  {
    hide Upsert;
    if es != [] {
      var before, last := es[..|es| - 1], es[|es| - 1];
      assert forall i | 0 <= i < |before| :: before[i] == es[i];
      SameRows(cfg, before, key, last.at);
      assert last in es && last.at <= now;
      var kept := WithoutCleanups(before);
      if last.Hit? {
        var all := kept + [last];
        assert WithoutCleanups(es) == all && all[..|all| - 1] == kept && all[|all| - 1] == last;
        if last.key == key {
          SameUpsert(cfg, RowAt(DatabaseAfter(cfg, before), key), RowAt(DatabaseAfter(cfg, kept), key), last.at);
        }
      } else {
        assert WithoutCleanups(es) == kept;
      }
    }
  }

  /** Cleanup steps, wherever they are inserted or dropped, change no hit result of either limiter. */
  lemma CleanupsDoNotMatter(cfg: Config, es: seq<Event>, key: string, at: nat)
    requires cfg.ttl > 0 && Clocked(es) && forall e | e in es :: e.at <= at
    ensures DatabaseHit(cfg, es, key, at) == DatabaseHit(cfg, WithoutCleanups(es), key, at)
    ensures MemoryHit(cfg, es, key, at) == MemoryHit(cfg, WithoutCleanups(es), key, at)
    ensures MemoryMarks(cfg, es, key, at) <==> MemoryMarks(cfg, WithoutCleanups(es), key, at)
  {
    SameRows(cfg, es, key, at);
    SameUpsert(cfg, RowAt(DatabaseAfter(cfg, es), key), RowAt(DatabaseAfter(cfg, WithoutCleanups(es)), key), at);
    hide Upsert, Use, MemoryHit, MemoryMarks, HitNumber;
    SameTimes(es, key);
    StaysClocked(es);
    LimitersRefineWindow(cfg, es, key, at);
    LimitersRefineWindow(cfg, WithoutCleanups(es), key, at);
  }

  // ----- rate bound -----

  /** How many hits of a key in [from, from + ttl) the database limiter does not block. */
  function Unblocked(cfg: Config, es: seq<Event>, key: string, from: nat): nat {
    if es == [] then 0
    else
      var before, last := es[..|es| - 1], es[|es| - 1];
      Unblocked(cfg, before, key, from)
      + if last.Hit? && last.key == key && from <= last.at < from + cfg.ttl
          && !DatabaseHit(cfg, before, key, last.at).isBlocked then 1 else 0
  }

  function Min(a: int, b: int): int {
    if a <= b then a else b
  }

  /** The bound on the unblocked hits so far, by the position of the current window. */
  ghost predicate Bounded(cfg: Config, ts: seq<nat>, from: nat, n: nat) {
    var cap := Max(1, cfg.limit);
    n <= 2 * cap - 1
    && (ts == [] ==> n == 0)
    && (ts != [] && ts[|ts| - 1] < from ==> n == 0)
    && (ts != [] && Opened(ts, cfg.ttl) < from ==> n <= Min(cap, HitNumber(ts, cfg.ttl)) - 1)
    && (ts != [] && from <= Opened(ts, cfg.ttl) < from + cfg.ttl ==> n <= cap - 1 + Min(cap, HitNumber(ts, cfg.ttl)))
  }

  lemma BoundStep(cfg: Config, ts: seq<nat>, t: nat, from: nat, n: nat)
    requires cfg.ttl > 0 && Ordered(ts + [t]) && Bounded(cfg, ts, from, n)
    ensures Bounded(cfg, ts + [t], from,
                    n + if from <= t < from + cfg.ttl
                        && HitNumber(ts + [t], cfg.ttl) <= Max(1, cfg.limit) then 1 else 0)
  {
    hide Opened, HitNumber;
    NextHit(ts, t, cfg.ttl);
    if ts == [] {
      assert ts + [t] == [t];
    } else {
      assert Ordered(ts) by { assert forall i | 0 <= i < |ts| :: ts[i] == (ts + [t])[i]; }
      assert (ts + [t])[|ts| - 1] <= (ts + [t])[|ts|];
      WindowBounds(ts, cfg.ttl);
    }
  }

  lemma {:induction false} UnblockedBounded(cfg: Config, es: seq<Event>, key: string, from: nat)
    requires cfg.ttl > 0 && Clocked(es)
    ensures Bounded(cfg, Times(es, key), from, Unblocked(cfg, es, key, from))
  {
    hide Bounded, DatabaseHit, HitNumber;
    if es != [] {
      var before, last := es[..|es| - 1], es[|es| - 1];
      assert forall i | 0 <= i < |before| :: before[i] == es[i];
      UnblockedBounded(cfg, before, key, from);
      if last.Hit? && last.key == key {
        TimesOrdered(before, key, last.at);
        LimitersRefineWindow(cfg, before, key, last.at);
        BoundStep(cfg, Times(before, key), last.at, from, Unblocked(cfg, before, key, from));
      } else {
        assert Times(es, key) == Times(before, key);
      }
    } else {
      assert Bounded(cfg, [], from, 0) by { EmptyBounded(cfg, from); }
    }
  }

  lemma EmptyBounded(cfg: Config, from: nat)
    ensures Bounded(cfg, [], from, 0)
  {
  }

  /**
   * Any half-open interval as long as the window lets at most 2 * limit - 1 hits through:
   * an interval that reaches into a second window has lost the hit that opened the first.
   */
  lemma RateBound(cfg: Config, es: seq<Event>, key: string, from: nat)
    requires cfg.ttl > 0 && cfg.limit >= 1 && Clocked(es)
    ensures Unblocked(cfg, es, key, from) <= 2 * cfg.limit - 1
  {
    UnblockedBounded(cfg, es, key, from);
  }

  // ----- the bound is reached -----

  /** One hit at 0, limit - 1 at the end of its window and limit at the start of the next. */
  function Burst(cfg: Config, key: string, n: nat): seq<Event> {
    if n == 0 then [] else Burst(cfg, key, n - 1) + [Hit(key, BurstTime(cfg, n))]
  }

  function BurstTime(cfg: Config, n: nat): nat {
    if n <= 1 || cfg.ttl == 0 then 0 else if n <= cfg.limit then cfg.ttl - 1 else cfg.ttl
  }

  lemma BurstStep(cfg: Config, key: string, n: nat)
    requires n >= 1
    ensures var es := Burst(cfg, key, n);
            es != [] && es[..|es| - 1] == Burst(cfg, key, n - 1) && es[|es| - 1] == Hit(key, BurstTime(cfg, n))
            && Times(es, key) == Times(Burst(cfg, key, n - 1), key) + [BurstTime(cfg, n)]
  {
  }

  lemma ClockedOneMore(es: seq<Event>, e: Event)
    requires Clocked(es) && forall x | x in es :: x.at <= e.at
    ensures Clocked(es + [e]) && forall x | x in es + [e] :: x.at <= e.at
  {
    assert forall i | 0 <= i < |es| :: es[i] in es;
  }

  lemma {:induction false} BurstClocked(cfg: Config, key: string, n: nat)
    requires cfg.ttl >= 2
    ensures Clocked(Burst(cfg, key, n)) && forall e | e in Burst(cfg, key, n) :: e.at <= BurstTime(cfg, n)
  {
    if n > 0 {
      BurstClocked(cfg, key, n - 1);
      hide Clocked, BurstTime;
      BurstTimesGrow(cfg, n);
      ClockedOneMore(Burst(cfg, key, n - 1), Hit(key, BurstTime(cfg, n)));
    }
  }

  lemma {:induction false} BurstWindow(cfg: Config, key: string, n: nat)
    requires cfg.limit >= 1 && cfg.ttl >= 2 && 1 <= n <= 2 * cfg.limit
    ensures Times(Burst(cfg, key, n), key) != []
    ensures Opened(Times(Burst(cfg, key, n), key), cfg.ttl) == if n <= cfg.limit then 0 else cfg.ttl
    ensures HitNumber(Times(Burst(cfg, key, n), key), cfg.ttl) == if n <= cfg.limit then n else n - cfg.limit
  {
    hide Opened, HitNumber, Times, Burst, Clocked, Ordered;
    BurstStep(cfg, key, n);
    var ts, t := Times(Burst(cfg, key, n - 1), key), BurstTime(cfg, n);
    BurstClocked(cfg, key, n - 1);
    BurstTimesGrow(cfg, n);
    TimesOrdered(Burst(cfg, key, n - 1), key, t);
    NextHit(ts, t, cfg.ttl);
    if n > 1 {
      BurstWindow(cfg, key, n - 1);
    } else {
      NoBurst(cfg, key);
      assert ts + [t] == [t];
    }
  }

  lemma BurstTimesGrow(cfg: Config, n: nat)
    requires n >= 1
    ensures BurstTime(cfg, n - 1) <= BurstTime(cfg, n)
  {
  }

  lemma NoBurst(cfg: Config, key: string)
    ensures Times(Burst(cfg, key, 0), key) == []
  {
  }

  lemma {:induction false} BurstCounts(cfg: Config, key: string, n: nat)
    requires cfg.limit >= 1 && cfg.ttl >= 2 && 1 <= n <= 2 * cfg.limit
    ensures Unblocked(cfg, Burst(cfg, key, n), key, cfg.ttl - 1) == n - 1
  {
    hide Opened, HitNumber, DatabaseHit, Times, Burst, Clocked;
    var before, t := Burst(cfg, key, n - 1), BurstTime(cfg, n);
    if n > 1 {
      BurstCounts(cfg, key, n - 1);
    } else {
      assert before == [] by { EmptyBurst(cfg, key); }
    }
    BurstStep(cfg, key, n);
    BurstClocked(cfg, key, n - 1);
    BurstTimesGrow(cfg, n);
    BurstWindow(cfg, key, n);
    LimitersRefineWindow(cfg, before, key, t);
  }

  lemma EmptyBurst(cfg: Config, key: string)
    ensures Burst(cfg, key, 0) == []
  {
  }

  /** With any limit and block duration and any window of two milliseconds or more, 2 * limit - 1 hits can pass. */
  lemma RateBoundIsReached(cfg: Config, key: string)
    requires cfg.limit >= 1 && cfg.ttl >= 2
    ensures Clocked(Burst(cfg, key, 2 * cfg.limit))
    ensures Unblocked(cfg, Burst(cfg, key, 2 * cfg.limit), key, cfg.ttl - 1) == 2 * cfg.limit - 1
  {
    BurstClocked(cfg, key, 2 * cfg.limit);
    BurstCounts(cfg, key, 2 * cfg.limit);
  }
}
