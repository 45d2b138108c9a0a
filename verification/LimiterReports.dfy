/**
 * The database limiter with its upsert and the SELECT after it as two statements: what
 * remains of the rate bound when the statements of several requests interleave.
 */
module LimiterReports {
  import opened Prelude
  import opened RateLimit

  datatype Statement =
    | CountHit(request: nat, key: string, at: nat)
    | ReportHit(request: nat, at: nat)
    | Sweep(at: nat)

  /** The statements that change the table. */
  function Changes(ss: seq<Statement>): seq<Event> {
    if ss == [] then []
    else
      Changes(ss[..|ss| - 1])
      + match ss[|ss| - 1]
        case CountHit(_, key, at) => [Hit(key, at)]
        case Sweep(at) => [Cleanup(at)]
        case ReportHit(_, _) => []
  }

  /** A hit that is counted and not yet reported; `past` tells whether its upsert was past the limit. */
  datatype Counted = Counted(key: string, at: nat, past: bool)

  function InFlight(cfg: Config, ss: seq<Statement>): map<nat, Counted> {
    if ss == [] then map[]
    else
      var before := ss[..|ss| - 1];
      match ss[|ss| - 1]
      case CountHit(q, key, at) =>
        InFlight(cfg, before)[q := Counted(key, at, DatabaseHit(cfg, Changes(before), key, at).isBlocked)]
      case ReportHit(q, _) => InFlight(cfg, before) - {q}
      case Sweep(_) => InFlight(cfg, before)
  }

  /** Every request counts once and then reports once, and the clock does not go back. */
  ghost predicate Interleaved(cfg: Config, ss: seq<Statement>) {
    ss != [] ==>
      var before, last := ss[..|ss| - 1], ss[|ss| - 1];
      && Interleaved(cfg, before)
      && (forall s | s in before :: s.at <= last.at)
      && (last.CountHit? ==> last.request !in InFlight(cfg, before))
      && (last.ReportHit? ==> last.request in InFlight(cfg, before))
  }

  /** What the SELECT and the comparison with the clock say about a key; a missing row does not block. */
  predicate BlockedNow(cfg: Config, es: seq<Event>, key: string, at: nat) {
    var row := RowAt(DatabaseAfter(cfg, es), key);
    row.Some? && row.value.blockedUntil.Some? && row.value.blockedUntil.value > at
  }

  /** The statement reports, as not blocked, a hit of the key that was counted in [from, from + ttl). */
  predicate LetsThrough(cfg: Config, before: seq<Statement>, s: Statement, key: string, from: nat) {
    && s.ReportHit? && s.request in InFlight(cfg, before)
    && InFlight(cfg, before)[s.request].key == key
    && from <= InFlight(cfg, before)[s.request].at < from + cfg.ttl
    && !BlockedNow(cfg, Changes(before), key, s.at)
  }

  function LetThrough(cfg: Config, ss: seq<Statement>, key: string, from: nat): nat {
    if ss == [] then 0
    else
      var before, last := ss[..|ss| - 1], ss[|ss| - 1];
      LetThrough(cfg, before, key, from) + if LetsThrough(cfg, before, last, key, from) then 1 else 0
  }

  /** Those among them that were past the limit: their block was over before their SELECT. */
  function LateReports(cfg: Config, ss: seq<Statement>, key: string, from: nat): nat {
    if ss == [] then 0
    else
      var before, last := ss[..|ss| - 1], ss[|ss| - 1];
      LateReports(cfg, before, key, from)
      + if LetsThrough(cfg, before, last, key, from) && InFlight(cfg, before)[last.request].past then 1 else 0
  }

  predicate CountsToward(w: Counted, key: string, from: nat, ttl: nat) {
    !w.past && w.key == key && from <= w.at < from + ttl
  }

  /** The hits within the limit that still wait for their report. */
  function Waiting(flights: map<nat, Counted>, key: string, from: nat, ttl: nat): set<nat> {
    set q | q in flights && CountsToward(flights[q], key, from, ttl)
  }

  lemma OneMoreWaits(flights: map<nat, Counted>, q: nat, w: Counted, key: string, from: nat, ttl: nat)
    requires q !in flights
    ensures |Waiting(flights[q := w], key, from, ttl)|
            == |Waiting(flights, key, from, ttl)| + if CountsToward(w, key, from, ttl) then 1 else 0
  {
    hide CountsToward;
    var ws := Waiting(flights, key, from, ttl);
    assert Waiting(flights[q := w], key, from, ttl) == if CountsToward(w, key, from, ttl) then ws + {q} else ws;
  }

  lemma {:induction false} ChangesClocked(cfg: Config, ss: seq<Statement>, now: nat)
    requires Interleaved(cfg, ss) && forall s | s in ss :: s.at <= now
    ensures Clocked(Changes(ss)) && forall e | e in Changes(ss) :: e.at <= now
  {
    hide InFlight;
    if ss != [] {
      var before, last := ss[..|ss| - 1], ss[|ss| - 1];
      ChangesClocked(cfg, before, last.at);
      assert last in ss;
    }
  }

  /** What remains of the bound: unblocked upserts and late reports, less reports and waiting hits. */
  function Balance(cfg: Config, ss: seq<Statement>, key: string, from: nat): int {
    Unblocked(cfg, Changes(ss), key, from) + LateReports(cfg, ss, key, from)
    - LetThrough(cfg, ss, key, from) - |Waiting(InFlight(cfg, ss), key, from, cfg.ttl)|
  }

  lemma CountedUnblocked(cfg: Config, es: seq<Event>, k: string, at: nat, key: string, from: nat)
    ensures var w := Counted(k, at, DatabaseHit(cfg, es, k, at).isBlocked);
            Unblocked(cfg, es + [Hit(k, at)], key, from)
            == Unblocked(cfg, es, key, from) + if CountsToward(w, key, from, cfg.ttl) then 1 else 0
  {
    hide DatabaseHit;
    var all := es + [Hit(k, at)];
    assert all[..|all| - 1] == es;
  }

  lemma CountBalance(cfg: Config, ss: seq<Statement>, key: string, from: nat)
    requires Interleaved(cfg, ss) && ss != [] && ss[|ss| - 1].CountHit?
    ensures Balance(cfg, ss, key, from) == Balance(cfg, ss[..|ss| - 1], key, from)
  {
    hide DatabaseHit, Unblocked, LetThrough, LateReports, Waiting, CountsToward;
    var before, last := ss[..|ss| - 1], ss[|ss| - 1];
    CountedUnblocked(cfg, Changes(before), last.key, last.at, key, from);
    OneMoreWaits(InFlight(cfg, before), last.request, InFlight(cfg, ss)[last.request], key, from, cfg.ttl);
    NoReport(cfg, ss, key, from);
  }

  lemma NoReport(cfg: Config, ss: seq<Statement>, key: string, from: nat)
    requires ss != [] && !ss[|ss| - 1].ReportHit?
    ensures LetThrough(cfg, ss, key, from) == LetThrough(cfg, ss[..|ss| - 1], key, from)
    ensures LateReports(cfg, ss, key, from) == LateReports(cfg, ss[..|ss| - 1], key, from)
  {
    hide InFlight, BlockedNow;
  }

  lemma ReportBalance(cfg: Config, ss: seq<Statement>, key: string, from: nat)
    requires ss != [] && ss[|ss| - 1].ReportHit?
    ensures Balance(cfg, ss, key, from) >= Balance(cfg, ss[..|ss| - 1], key, from)
  {
    hide DatabaseHit, BlockedNow, Unblocked;
    var before, last := ss[..|ss| - 1], ss[|ss| - 1];
    assert Changes(ss) == Changes(before);
    assert Waiting(InFlight(cfg, ss), key, from, cfg.ttl)
           == Waiting(InFlight(cfg, before), key, from, cfg.ttl) - {last.request};
  }

  lemma SweepBalance(cfg: Config, ss: seq<Statement>, key: string, from: nat)
    requires ss != [] && ss[|ss| - 1].Sweep?
    ensures Balance(cfg, ss, key, from) == Balance(cfg, ss[..|ss| - 1], key, from)
  {
    hide DatabaseHit, BlockedNow;
    var es := Changes(ss);
    assert es[..|es| - 1] == Changes(ss[..|ss| - 1]) && es[|es| - 1] == Cleanup(ss[|ss| - 1].at);
    assert InFlight(cfg, ss) == InFlight(cfg, ss[..|ss| - 1]);
    NoReport(cfg, ss, key, from);
  }

  /** Reports and waiting hits never outnumber the unblocked upserts and the late reports. */
  lemma {:induction false} ReportsBalance(cfg: Config, ss: seq<Statement>, key: string, from: nat)
    requires Interleaved(cfg, ss)
    ensures Balance(cfg, ss, key, from) >= 0
  {
    if ss == [] {
      assert Waiting(InFlight(cfg, ss), key, from, cfg.ttl) == {};
    } else {
      hide Balance;
      ReportsBalance(cfg, ss[..|ss| - 1], key, from);
      match ss[|ss| - 1]
      case CountHit(_, _, _) => CountBalance(cfg, ss, key, from);
      case ReportHit(_, _) => ReportBalance(cfg, ss, key, from);
      case Sweep(_) => SweepBalance(cfg, ss, key, from);
    }
  }

  /**
   * With upserts and SELECTs of any requests interleaved, the bound survives but for the
   * hits past the limit whose block was over before their SELECT.
   */
  lemma RateBoundInterleaved(cfg: Config, ss: seq<Statement>, key: string, from: nat)
    requires cfg.ttl > 0 && cfg.limit >= 1 && Interleaved(cfg, ss)
    ensures LetThrough(cfg, ss, key, from) <= 2 * cfg.limit - 1 + LateReports(cfg, ss, key, from)
  {
    hide Unblocked, LetThrough, LateReports, Changes, Interleaved;
    ReportsBalance(cfg, ss, key, from);
    var now := LatestTime(cfg, ss);
    ChangesClocked(cfg, ss, now);
    RateBound(cfg, Changes(ss), key, from);
  }

  lemma {:induction false} LatestTime(cfg: Config, ss: seq<Statement>) returns (now: nat)
    requires Interleaved(cfg, ss)
    ensures forall s | s in ss :: s.at <= now
  {
    hide InFlight;
    now := if ss == [] then 0 else ss[|ss| - 1].at;
  }

  /** A hit past the limit is still blocked while the clock shows the time of its upsert. */
  ghost predicate StillBlocked(cfg: Config, ss: seq<Statement>, q: nat)
    requires q in InFlight(cfg, ss)
  {
    var w := InFlight(cfg, ss)[q];
    w.past && (forall s | s in ss :: s.at <= w.at) ==> BlocksAt(RowAt(DatabaseAfter(cfg, Changes(ss)), w.key), w.at)
  }

  predicate BlocksAt(row: Option<Row>, now: nat) {
    row.Some? && row.value.expiresAt > now && row.value.blockedUntil.Some? && row.value.blockedUntil.value > now
  }

  lemma UpsertBlocks(cfg: Config, row: Option<Row>, now: nat)
    requires cfg.ttl > 0
    ensures ReportOf(Upsert(cfg, row, now), now).isBlocked ==> BlocksAt(Some(Upsert(cfg, row, now)), now)
    ensures BlocksAt(row, now) ==> BlocksAt(Some(Upsert(cfg, row, now)), now)
  {
  }

  lemma StillBlockedStep(cfg: Config, ss: seq<Statement>, q: nat)
    requires cfg.ttl > 0 && Interleaved(cfg, ss) && ss != [] && q in InFlight(cfg, ss)
    requires q in InFlight(cfg, ss[..|ss| - 1]) ==> StillBlocked(cfg, ss[..|ss| - 1], q)
    ensures StillBlocked(cfg, ss, q)
  {
    hide Upsert, ReportOf;
    var before, last := ss[..|ss| - 1], ss[|ss| - 1];
    var w := InFlight(cfg, ss)[q];
    if w.past && forall s | s in ss :: s.at <= w.at {
      assert last in ss && forall s | s in before :: s in ss;
      var es, es' := Changes(before), Changes(ss);
      if last.ReportHit? {
        assert es' == es;
      } else {
        assert es'[..|es'| - 1] == es;
        if last.CountHit? {
          CountAtTime(cfg, ss, q);
          UpsertBlocks(cfg, RowAt(DatabaseAfter(cfg, es), w.key), w.at);
        }
      }
    }
  }

  /** A hit that waits was counted by now, so at its own time no statement has a later one. */
  lemma {:induction false} CountAtTime(cfg: Config, ss: seq<Statement>, q: nat)
    requires Interleaved(cfg, ss) && ss != [] && q in InFlight(cfg, ss)
    ensures InFlight(cfg, ss)[q].at <= ss[|ss| - 1].at
  {
    hide DatabaseHit;
    var before, last := ss[..|ss| - 1], ss[|ss| - 1];
    if !(last.CountHit? && last.request == q) {
      CountAtTime(cfg, before, q);
      assert before[|before| - 1] in before;
    }
  }

  lemma {:induction false} PastStaysBlocked(cfg: Config, ss: seq<Statement>, q: nat)
    requires cfg.ttl > 0 && Interleaved(cfg, ss) && q in InFlight(cfg, ss)
    ensures StillBlocked(cfg, ss, q)
  {
    hide StillBlocked, DatabaseHit;
    if ss != [] {
      if q in InFlight(cfg, ss[..|ss| - 1]) { PastStaysBlocked(cfg, ss[..|ss| - 1], q); }
      StillBlockedStep(cfg, ss, q);
    }
  }

  /** Every SELECT runs at the clock time of its upsert. */
  ghost predicate Prompt(cfg: Config, ss: seq<Statement>) {
    ss != [] ==>
      var before, last := ss[..|ss| - 1], ss[|ss| - 1];
      Prompt(cfg, before)
      && (last.ReportHit? && last.request in InFlight(cfg, before)
          ==> last.at == InFlight(cfg, before)[last.request].at)
  }

  /** When SELECTs run at the time of their upserts, hits in between only add blocks, and the bound holds as it is. */
  lemma {:induction false} PromptReports(cfg: Config, ss: seq<Statement>, key: string, from: nat)
    requires cfg.ttl > 0 && Interleaved(cfg, ss) && Prompt(cfg, ss)
    ensures LateReports(cfg, ss, key, from) == 0
    ensures cfg.limit >= 1 ==> LetThrough(cfg, ss, key, from) <= 2 * cfg.limit - 1
  {
    hide DatabaseHit, Changes, LetThrough;
    if ss != [] {
      var before, last := ss[..|ss| - 1], ss[|ss| - 1];
      PromptReports(cfg, before, key, from);
      if last.ReportHit? {
        PastStaysBlocked(cfg, before, last.request);
      }
    }
    if cfg.limit >= 1 {
      RateBoundInterleaved(cfg, ss, key, from);
    }
  }

  // ----- when a report is right -----

  /**
   * In every interleaving a SELECT reports a key as blocked exactly when, from the times
   * of its hits so far, a block still runs; and a hit is past the limit exactly by its
   * number in the window.
   */
  lemma ReportedTruth(cfg: Config, ss: seq<Statement>, key: string, at: nat)
    requires cfg.ttl > 0 && Interleaved(cfg, ss) && forall s | s in ss :: s.at <= at
    ensures BlockedNow(cfg, Changes(ss), key, at) <==> Later(BlockEnd(cfg, Times(Changes(ss), key)), at)
  {
    hide BlockEnd;
    ChangesClocked(cfg, ss, at);
    BlocksAgree(cfg, Changes(ss), key, at);
  }

  lemma CountedPast(cfg: Config, ss: seq<Statement>, q: nat, key: string, at: nat)
    requires cfg.ttl > 0 && Interleaved(cfg, ss + [CountHit(q, key, at)])
    ensures var w := InFlight(cfg, ss + [CountHit(q, key, at)])[q];
            w.key == key && w.at == at
            && (w.past <==> HitNumber(Times(Changes(ss), key) + [at], cfg.ttl) > Max(1, cfg.limit))
  {
    var all := ss + [CountHit(q, key, at)];
    assert all[..|all| - 1] == ss;
    hide HitNumber, DatabaseHit;
    ChangesClocked(cfg, ss, at);
    LimitersRefineWindow(cfg, Changes(ss), key, at);
  }

  /** A report tells whether its own hit was past the limit. */
  predicate RightReport(cfg: Config, before: seq<Statement>, s: Statement) {
    s.ReportHit? && s.request in InFlight(cfg, before) ==>
      var w := InFlight(cfg, before)[s.request];
      BlockedNow(cfg, Changes(before), w.key, s.at) <==> w.past
  }

  /** A block of the key runs when the report is made, if and only if the hit was past the limit. */
  predicate BlockRunsIfPast(cfg: Config, before: seq<Statement>, s: Statement) {
    s.ReportHit? && s.request in InFlight(cfg, before) ==>
      var w := InFlight(cfg, before)[s.request];
      Later(BlockEnd(cfg, Times(Changes(before), w.key)), s.at) <==> w.past
  }

  predicate AllRight(cfg: Config, ss: seq<Statement>) {
    ss != [] ==> AllRight(cfg, ss[..|ss| - 1]) && RightReport(cfg, ss[..|ss| - 1], ss[|ss| - 1])
  }

  predicate BlocksRunIfPast(cfg: Config, ss: seq<Statement>) {
    ss != [] ==> BlocksRunIfPast(cfg, ss[..|ss| - 1]) && BlockRunsIfPast(cfg, ss[..|ss| - 1], ss[|ss| - 1])
  }

  /**
   * Exactly which interleavings report every hit as blocked if and only if it was past the
   * limit, for every limit and block duration: those in which at each report a block of
   * the key, by the times of its hits, runs if and only if the reported hit was past it.
   */
  lemma {:induction false} ReportsRight(cfg: Config, ss: seq<Statement>)
    requires cfg.ttl > 0 && Interleaved(cfg, ss)
    ensures AllRight(cfg, ss) <==> BlocksRunIfPast(cfg, ss)
  {
    hide BlockedNow, BlockEnd, InFlight, Changes;
    if ss != [] {
      var before, last := ss[..|ss| - 1], ss[|ss| - 1];
      ReportsRight(cfg, before);
      if last.ReportHit? && last.request in InFlight(cfg, before) {
        ReportedTruth(cfg, before, InFlight(cfg, before)[last.request].key, last.at);
      }
    }
  }

  /**
   * Blocked exactly past the limit does not survive: with a limit of 1 a second hit counted
   * before the first one's SELECT has the first one reported as blocked.
   */
  lemma OvertakenIsBlocked(ttl: nat, block: nat, key: string, at: nat)
    requires ttl > 0
    ensures var cfg := Config(ttl, 1, block);
            var ss := [CountHit(0, key, at), CountHit(1, key, at)];
            Interleaved(cfg, ss) && 0 in InFlight(cfg, ss) && !InFlight(cfg, ss)[0].past
            && BlockedNow(cfg, Changes(ss), key, at)
  {
    var cfg := Config(ttl, 1, block);
    var s1 := [CountHit(0, key, at)];
    var ss := [CountHit(0, key, at), CountHit(1, key, at)];
    assert ss[..1] == s1 && s1[..0] == [];
    assert Changes([]) == [] && Changes(s1) == [] + [Hit(key, at)] && Changes(ss) == Changes(s1) + [Hit(key, at)];
    var es := [Hit(key, at)];
    var es' := [Hit(key, at), Hit(key, at)];
    assert es[..0] == [] && es'[..1] == es && Changes(s1) == es && Changes(ss) == es';
    assert DatabaseAfter(cfg, []) == map[];
    assert DatabaseAfter(cfg, es)[key] == Row(1, at + ttl, None);
    assert InFlight(cfg, []) == map[] && Interleaved(cfg, []);
    assert InFlight(cfg, s1)[0] == Counted(key, at, false);
    assert Interleaved(cfg, s1);
  }

  /**
   * A SELECT that runs after the block is over lets a hit past the limit through: limit 1,
   * a block of one millisecond, and a report one millisecond after the second hit.
   */
  lemma LateReportPasses(ttl: nat, key: string, at: nat)
    requires ttl > 1
    ensures var cfg := Config(ttl, 1, 1);
            var ss := [CountHit(0, key, at), CountHit(1, key, at)];
            1 in InFlight(cfg, ss) && InFlight(cfg, ss)[1].past
            && LetsThrough(cfg, ss, ReportHit(1, at + 1), key, at)
  {
    var cfg := Config(ttl, 1, 1);
    var s1 := [CountHit(0, key, at)];
    var ss := [CountHit(0, key, at), CountHit(1, key, at)];
    assert ss[..1] == s1 && s1[..0] == [];
    assert Changes([]) == [] && Changes(s1) == [] + [Hit(key, at)] && Changes(ss) == Changes(s1) + [Hit(key, at)];
    var es := [Hit(key, at)];
    var es' := [Hit(key, at), Hit(key, at)];
    assert es[..0] == [] && es'[..1] == es && Changes(s1) == es && Changes(ss) == es';
    assert DatabaseAfter(cfg, []) == map[];
    assert DatabaseAfter(cfg, es)[key] == Row(1, at + ttl, None);
    assert DatabaseAfter(cfg, es')[key] == Row(2, at + ttl, Some(at + 1));
    assert InFlight(cfg, []) == map[];
  }
}
