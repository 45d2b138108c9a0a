/**
 * The privacy-request workflow: tables, statements, whole requests, and what survives
 * when the statements of several requests interleave.
 */
module Privacy {
  import opened Prelude

  type Hash = string -> string

  datatype RequestType = Access | Correction | Deletion | Export | OptOut | Appeal

  datatype Status = Received | Verifying | InReview | Completed | Denied | Canceled

  /** A PrivacyRequest row; empty notes stand for NULL. */
  datatype Record = Record(
    requestType: RequestType,
    status: Status,
    tokenHash: Option<string>,
    tokenExpiresAt: nat,
    verifiedAt: Option<nat>,
    identityVerifiedAt: Option<nat>,
    notes: string,
    legalHoldAt: Option<nat>,
    deletionApprovedAt: Option<nat>,
    completedAt: Option<nat>)

  datatype Artifact = Artifact(requestId: nat, tokenHash: string, expiresAt: nat, downloadedAt: Option<nat>)

  /** The tables; `jobs` lists the request of each deletion job. */
  datatype Store = Store(records: map<nat, Record>, artifacts: map<nat, Artifact>, jobs: seq<nat>)

  /** An administrator's update; texts are trimmed, empty when missing. */
  datatype Edit = Edit(status: Status, identityVerified: bool, notes: string, legalHold: Option<bool>,
      holdReason: string, deletionApproved: bool)

  predicate Terminal(s: Status) {
    s in {Completed, Denied, Canceled}
  }

  const DAY_MS := 86_400_000

  // ----- statements -----

  function NewRecord(h: Hash, t: RequestType, token: string, now: nat): Record {
    Record(t, Verifying, Some(h(token)), now + DAY_MS, None, None, "", None, None, None)
  }

  /** The rows that verify considers, and the token check. */
  predicate Verifiable(h: Hash, r: Record, token: string, now: nat) {
    r.status == Verifying && r.tokenExpiresAt > now && r.verifiedAt.None? && r.tokenHash == Some(h(token))
  }

  /** UPDATE ... WHERE verifiedAt IS NULL. */
  function Verified(r: Record, now: nat): Record {
    if r.verifiedAt.Some? then r
    else r.(status := Received, verifiedAt := Some(now), identityVerifiedAt := Some(now), tokenHash := None)
  }

  /** The checks of update, made on the row as it was read. */
  predicate Allowed(seen: Record, e: Edit) {
    && (e.status == Completed ==> seen.identityVerifiedAt.Some? || e.identityVerified)
    && (e.status == Denied ==> e.notes != "" || seen.notes != "")
    && (e.legalHold == Some(true) ==> e.holdReason != "")
    && (e.status == Completed && seen.requestType == Deletion ==>
          seen.legalHoldAt.None? && e.legalHold != Some(true) && (seen.deletionApprovedAt.Some? || e.deletionApproved))
  }

  function Coalesce(t: Option<nat>, now: nat): Option<nat> {
    if t.Some? then t else Some(now)
  }

  /** The UPDATE on the current row; the notes fall back on the row as it was read. */
  function Edited(r: Record, seen: Record, e: Edit, now: nat): Record {
    r.(status := e.status,
       identityVerifiedAt := if e.identityVerified then Coalesce(r.identityVerifiedAt, now) else r.identityVerifiedAt,
       notes := if e.notes != "" then e.notes else seen.notes,
       legalHoldAt := if e.legalHold == Some(true) then Coalesce(r.legalHoldAt, now)
           else if e.legalHold == Some(false) then None else r.legalHoldAt,
       deletionApprovedAt := if e.deletionApproved then Coalesce(r.deletionApprovedAt, now) else r.deletionApprovedAt,
       completedAt := if Terminal(e.status) then Some(now) else None)
  }

  lemma EditedType(r: Record, seen: Record, e: Edit, now: nat)
    ensures Edited(r, seen, e, now).requestType == r.requestType && Edited(r, seen, e, now).status == e.status
  {
  }

  /** What update adds when it saw the request leave an open status for COMPLETED. */
  function Finished(h: Hash, s: Store, id: nat, seen: Record, e: Edit, artifactId: nat, token: string,
      now: nat): Store {
    if e.status != Completed || seen.status == Completed then s
    else if seen.requestType == Access || seen.requestType == Export then
      s.(artifacts := s.artifacts[artifactId := Artifact(id, h(token), now + DAY_MS, None)])
    else if seen.requestType == Deletion then s.(jobs := s.jobs + [id])
    else s
  }

  lemma FinishedKeepsRecords(h: Hash, s: Store, id: nat, seen: Record, e: Edit, artifactId: nat, token: string,
      now: nat)
    ensures Finished(h, s, id, seen, e, artifactId, token, now).records == s.records
  {
  }

  /** A time that is set once and then stays. */
  function FirstTime(before: Option<nat>, given: bool, now: nat): Option<nat> {
    if before.Some? then before else if given then Some(now) else None
  }

  /** An edit on the row as it was read, field by field. */
  lemma EditedFields(r: Record, e: Edit, now: nat)
    ensures var r' := Edited(r, r, e, now);
            && r'.status == e.status && r'.requestType == r.requestType
            && r'.tokenHash == r.tokenHash && r'.tokenExpiresAt == r.tokenExpiresAt && r'.verifiedAt == r.verifiedAt
            && r'.notes == (if e.notes != "" then e.notes else r.notes)
            && r'.identityVerifiedAt == FirstTime(r.identityVerifiedAt, e.identityVerified, now)
            && r'.deletionApprovedAt == FirstTime(r.deletionApprovedAt, e.deletionApproved, now)
            && (e.legalHold != Some(false)
                ==> r'.legalHoldAt == FirstTime(r.legalHoldAt, e.legalHold == Some(true), now))
            && (e.legalHold == Some(false) ==> r'.legalHoldAt.None?)
            && r'.completedAt
               == (if e.status == Completed || e.status == Denied || e.status == Canceled then Some(now) else None)
  {
  }

  lemma FinishedAdds(h: Hash, s: Store, id: nat, seen: Record, e: Edit, artifactId: nat, token: string, now: nat)
    ensures var s' := Finished(h, s, id, seen, e, artifactId, token, now);
            var completes := e.status == Completed && seen.status != Completed;
            && s'.artifacts == (if completes && (seen.requestType == Access || seen.requestType == Export)
                 then s.artifacts[artifactId := Artifact(id, h(token), now + 86_400_000, None)] else s.artifacts)
            && s'.jobs == (if completes && seen.requestType == Deletion then s.jobs + [id] else s.jobs)
  {
  }

  predicate Downloadable(h: Hash, a: Artifact, token: string, now: nat) {
    a.downloadedAt.None? && a.expiresAt > now && a.tokenHash == h(token)
  }

  function Downloaded(a: Artifact, now: nat): Artifact {
    if a.downloadedAt.Some? then a else a.(downloadedAt := Some(now))
  }

  // ----- whole requests -----

  datatype Request =
    | Create(id: nat, requestType: RequestType, token: string, now: nat)
    | Verify(id: nat, token: string, now: nat)
    | Update(id: nat, edit: Edit, artifactId: nat, token: string, now: nat)
    | Download(artifactId: nat, token: string, now: nat)

  /** One request without interference; refused requests change nothing. */
  function Handle(h: Hash, s: Store, r: Request): Store {
    match r
    case Create(id, t, token, now) =>
      if id in s.records then s else s.(records := s.records[id := NewRecord(h, t, token, now)])
    case Verify(id, token, now) =>
      if id in s.records && Verifiable(h, s.records[id], token, now) then
          s.(records := s.records[id := Verified(s.records[id], now)]) else s
    case Update(id, e, artifactId, token, now) =>
      if id in s.records && Allowed(s.records[id], e) then
        Finished(h, s.(records := s.records[id := Edited(s.records[id], s.records[id], e, now)]), id, s.records[id],
            e, artifactId, token, now)
      else s
    case Download(a, token, now) =>
      if a in s.artifacts && Downloadable(h, s.artifacts[a], token, now) then
          s.(artifacts := s.artifacts[a := Downloaded(s.artifacts[a], now)]) else s
  }

  lemma HandleUpdate(h: Hash, s: Store, id: nat, e: Edit, artifactId: nat, token: string, now: nat)
    ensures Handle(h, s, Update(id, e, artifactId, token, now)) ==
            if id in s.records && Allowed(s.records[id], e)
            then Finished(h, s.(records := s.records[id := Edited(s.records[id], s.records[id], e, now)]), id,
                s.records[id], e, artifactId, token, now)
            else s
  {
  }

  /** The service, one request at a time. */
  class PrivacyService {
    const hash: Hash
    var store: Store

    constructor (hash: Hash)
      ensures this.hash == hash && store == Store(map[], map[], [])
    {
      this.hash := hash;
      store := Store(map[], map[], []);
    }

    /** A new request waits for its confirmation, for a day; nothing but the hash of its token is stored. */
    method CreateRequest(id: nat, t: RequestType, token: string, now: nat)
      requires id !in store.records
      modifies this
      ensures store == Handle(hash, old(store), Create(id, t, token, now))
      ensures store.records.Keys == old(store).records.Keys + {id}
      ensures forall k | k in old(store).records :: store.records[k] == old(store).records[k]
      ensures store.artifacts == old(store).artifacts && store.jobs == old(store).jobs
      ensures var r := store.records[id];
              && r.requestType == t && r.status == Verifying
              && r.tokenHash == Some(hash(token)) && r.tokenExpiresAt == now + 86_400_000
              && r.verifiedAt.None? && r.identityVerifiedAt.None? && r.notes == ""
              && r.legalHoldAt.None? && r.deletionApprovedAt.None? && r.completedAt.None?
    {
      store := store.(records := store.records[id := NewRecord(hash, t, token, now)]);
    }

    /**
     * Looks for an unconfirmed request that waits for this token and has not run out; then
     * the request is received with its identity verified and the token is gone, otherwise
     * nothing changes.
     */
    method VerifyToken(token: string, now: nat) returns (found: Option<nat>)
      modifies this
      ensures found.None? ==> store == old(store)
      ensures found.None? <==>
                forall id | id in old(store).records ::
                  var r := old(store).records[id];
                  !(r.status == Verifying && r.tokenExpiresAt > now && r.verifiedAt.None?
                      && r.tokenHash == Some(hash(token)))
      ensures found.Some? ==> store == Handle(hash, old(store), Verify(found.value, token, now))
      ensures found.Some? ==>
                && found.value in old(store).records
                && var r := old(store).records[found.value];
                && r.status == Verifying && r.tokenExpiresAt > now && r.verifiedAt.None?
                && r.tokenHash == Some(hash(token))
                && store == old(store).(records := old(store).records[found.value :=
                     r.(status := Received, verifiedAt := Some(now), identityVerifiedAt := Some(now),
                        tokenHash := None)])
    {
      if id :| id in store.records && Verifiable(hash, store.records[id], token, now) {
        store := store.(records := store.records[id := Verified(store.records[id], now)]);
        return Some(id);
      }
      return None;
    }

    /**
     * An update goes through unless it completes a request without a verified identity,
     * denies one without notes, holds one without a reason, or completes a deletion that is
     * held or not approved. First times stay; notes, hold and completion follow the update;
     * leaving an open status for COMPLETED adds an export for a day or a deletion job.
     */
    method UpdateRequest(id: nat, e: Edit, artifactId: nat, token: string, now: nat) returns (r: Result<Record>)
      modifies this
      ensures store == Handle(hash, old(store), Update(id, e, artifactId, token, now))
      ensures r.Ok? <==>
                id in old(store).records
                && var was := old(store).records[id];
                && (e.status == Completed ==> was.identityVerifiedAt.Some? || e.identityVerified)
                && (e.status == Denied ==> e.notes != "" || was.notes != "")
                && (e.legalHold == Some(true) ==> e.holdReason != "")
                && (e.status == Completed && was.requestType == Deletion ==>
                      was.legalHoldAt.None? && e.legalHold != Some(true)
                      && (was.deletionApprovedAt.Some? || e.deletionApproved))
      ensures r.Err? ==> store == old(store)
      ensures r.Ok? ==> id in old(store).records && store.records == old(store).records[id := r.value]
      ensures r.Ok? ==>
                var was := old(store).records[id];
                && r.value.status == e.status && r.value.requestType == was.requestType
                && r.value.tokenHash == was.tokenHash && r.value.tokenExpiresAt == was.tokenExpiresAt
                && r.value.verifiedAt == was.verifiedAt
                && r.value.notes == (if e.notes != "" then e.notes else was.notes)
                && r.value.identityVerifiedAt == FirstTime(was.identityVerifiedAt, e.identityVerified, now)
                && r.value.deletionApprovedAt == FirstTime(was.deletionApprovedAt, e.deletionApproved, now)
                && (e.legalHold != Some(false) ==>
                      r.value.legalHoldAt == FirstTime(was.legalHoldAt, e.legalHold == Some(true), now))
                && (e.legalHold == Some(false) ==> r.value.legalHoldAt.None?)
                && r.value.completedAt
                    == (if e.status == Completed || e.status == Denied || e.status == Canceled then Some(now) else None)
      ensures r.Ok? ==>
                var was := old(store).records[id];
                var completes := e.status == Completed && was.status != Completed;
                && store.artifacts == (if completes && (was.requestType == Access || was.requestType == Export)
                     then old(store).artifacts[artifactId := Artifact(id, hash(token), now + 86_400_000, None)]
                     else old(store).artifacts)
                && store.jobs ==
                     (if completes && was.requestType == Deletion then old(store).jobs + [id] else old(store).jobs)
    {
      hide Finished, Edited, Handle;
      HandleUpdate(hash, store, id, e, artifactId, token, now);
      if id !in store.records {
        return Err("Privacy request not found");
      }
      var existing := store.records[id];
      if e.status == Completed && existing.identityVerifiedAt.None? && !e.identityVerified {
        return Err("Identity must be verified before completing a privacy request");
      }
      if e.status == Denied && e.notes == "" && existing.notes == "" {
        return Err("A reason is required when denying a privacy request");
      }
      if e.legalHold == Some(true) && e.holdReason == "" {
        return Err("A legal hold reason is required");
      }
      if e.status == Completed && existing.requestType == Deletion {
        if existing.legalHoldAt.Some? || e.legalHold == Some(true) {
          return Err("A request under legal hold cannot be deleted");
        }
        if existing.deletionApprovedAt.None? && !e.deletionApproved {
          return Err("Deletion must be explicitly approved");
        }
      }
      store := store.(records := store.records[id := Edited(existing, existing, e, now)]);
      EditedFields(existing, e, now);
      FinishedKeepsRecords(hash, store, id, existing, e, artifactId, token, now);
      FinishedAdds(hash, store, id, existing, e, artifactId, token, now);
      store := Finished(hash, store, id, existing, e, artifactId, token, now);
      r := Ok(store.records[id]);
    }

    /**
     * Looks for an artifact that was issued with this token, has not run out and was not
     * downloaded; then it is marked as downloaded, otherwise nothing changes.
     */
    method DownloadExport(token: string, now: nat) returns (found: Option<nat>)
      modifies this
      ensures found.None? ==> store == old(store)
      ensures found.None? <==>
                forall a | a in old(store).artifacts ::
                  var artifact := old(store).artifacts[a];
                  !(artifact.downloadedAt.None? && artifact.expiresAt > now && artifact.tokenHash == hash(token))
      ensures found.Some? ==> store == Handle(hash, old(store), Download(found.value, token, now))
      ensures found.Some? ==>
                && found.value in old(store).artifacts
                && var artifact := old(store).artifacts[found.value];
                && artifact.downloadedAt.None? && artifact.expiresAt > now && artifact.tokenHash == hash(token)
                && store == old(store).(artifacts :=
                    old(store).artifacts[found.value := artifact.(downloadedAt := Some(now))])
    {
      if a :| a in store.artifacts && Downloadable(hash, store.artifacts[a], token, now) {
        store := store.(artifacts := store.artifacts[a := Downloaded(store.artifacts[a], now)]);
        return Some(a);
      }
      return None;
    }
  }

  // ----- runs of atomic requests -----

  const Empty := Store(map[], map[], [])

  function After(h: Hash, rs: seq<Request>): Store {
    if rs == [] then Empty else Handle(h, After(h, rs[..|rs| - 1]), rs[|rs| - 1])
  }

  /** The request was open, or did not exist, and is completed now. */
  predicate Entered(before: Store, after: Store, id: nat) {
    id in after.records && after.records[id].status == Completed
        && !(id in before.records && before.records[id].status == Completed)
  }

  /** The request that a step of the run addresses. */
  function Target(r: Request): Option<nat> {
    if r.Download? then None else Some(r.id)
  }

  /** How often a request of one of these types entered COMPLETED during the run. */
  function EntriesOf(h: Hash, rs: seq<Request>, types: set<RequestType>): nat {
    if rs == [] then 0
    else
      var before, after := After(h, rs[..|rs| - 1]), After(h, rs);
      EntriesOf(h, rs[..|rs| - 1], types) + if EnteredOf(before, after, rs[|rs| - 1], types) then 1 else 0
  }

  predicate EnteredOf(before: Store, after: Store, r: Request, types: set<RequestType>) {
    var t := Target(r);
    t.Some? && Entered(before, after, t.value) && after.records[t.value].requestType in types
  }

  /** Artifacts get identifiers that are not in use. */
  predicate FreshArtifacts(h: Hash, rs: seq<Request>) {
    rs != [] ==>
      FreshArtifacts(h, rs[..|rs| - 1])
      && (rs[|rs| - 1].Update? ==> rs[|rs| - 1].artifactId !in After(h, rs[..|rs| - 1]).artifacts)
  }

  ghost predicate RecordOk(r: Record) {
    && (r.status == Completed ==> r.identityVerifiedAt.Some?)
    && (r.status == Completed && r.requestType == Deletion ==> r.deletionApprovedAt.Some?)
    && (r.status == Denied ==> r.notes != "")
  }

  ghost predicate AtomicOk(r: Record) {
    && RecordOk(r)
    && (r.status == Completed && r.requestType == Deletion ==> r.legalHoldAt.None?)
    && (r.completedAt.Some? <==> Terminal(r.status))
  }

  lemma EditKeeps(r: Record, e: Edit, now: nat)
    requires AtomicOk(r) && Allowed(r, e)
    ensures AtomicOk(Edited(r, r, e, now))
  {
  }

  lemma HandleKeeps(h: Hash, s: Store, r: Request)
    requires forall id | id in s.records :: AtomicOk(s.records[id])
    ensures forall id | id in Handle(h, s, r).records :: AtomicOk(Handle(h, s, r).records[id])
  {
    hide AtomicOk, Edited, Finished;
    match r
    case Create(id, t, token, now) => assert AtomicOk(NewRecord(h, t, token, now)) by { NewRecordOk(h, t, token, now); }
    case Verify(id, token, now) =>
      if id in s.records && Verifiable(h, s.records[id], token, now) { VerifiedOk(h, s.records[id], token, now); }
    case Update(id, e, artifactId, token, now) =>
      if id in s.records && Allowed(s.records[id], e) {
        EditKeeps(s.records[id], e, now);
        var edited := s.(records := s.records[id := Edited(s.records[id], s.records[id], e, now)]);
        FinishedKeepsRecords(h, edited, id, s.records[id], e, artifactId, token, now);
      }
    case _ =>
  }

  lemma NewRecordOk(h: Hash, t: RequestType, token: string, now: nat)
    ensures AtomicOk(NewRecord(h, t, token, now))
  {
  }

  lemma VerifiedOk(h: Hash, r: Record, token: string, now: nat)
    requires AtomicOk(r) && Verifiable(h, r, token, now)
    ensures AtomicOk(Verified(r, now))
  {
  }

  lemma JobsCountEntries(h: Hash, s: Store, r: Request)
    ensures var s' := Handle(h, s, r);
            |s'.jobs| == |s.jobs| + if EnteredOf(s, s', r, {Deletion}) then 1 else 0
  {
  }

  lemma OneMoreArtifact(m: map<nat, Artifact>, k: nat, a: Artifact)
    ensures |m[k := a]| == |m| + if k in m then 0 else 1
  {
    assert m[k := a].Keys == m.Keys + {k};
  }

  lemma ArtifactsCountEntries(h: Hash, s: Store, r: Request)
    requires r.Update? ==> r.artifactId !in s.artifacts
    ensures var s' := Handle(h, s, r);
            |s'.artifacts| == |s.artifacts| + if EnteredOf(s, s', r, {Access, Export}) then 1 else 0
  {
    hide Allowed, Verifiable, Edited, Downloadable;
    match r
    case Update(id, e, artifactId, token, now) =>
      if id in s.records {
        EditedType(s.records[id], s.records[id], e, now);
        OneMoreArtifact(s.artifacts, artifactId, Artifact(id, h(token), now + DAY_MS, None));
      }
    case Download(a, token, now) =>
      if a in s.artifacts { OneMoreArtifact(s.artifacts, a, Downloaded(s.artifacts[a], now)); }
    case _ =>
  }

  /**
   * Over every run of atomic requests: a completed deletion is approved and never under
   * legal hold, completedAt is set exactly in the terminal statuses, there is one
   * deletion job for each time a deletion entered COMPLETED, and one export artifact for
   * each time an access or export request did.
   */
  lemma {:induction false} AtomicRuns(h: Hash, rs: seq<Request>)
    ensures forall id | id in After(h, rs).records :: AtomicOk(After(h, rs).records[id])
    ensures |After(h, rs).jobs| == EntriesOf(h, rs, {Deletion})
    ensures FreshArtifacts(h, rs) ==> |After(h, rs).artifacts| == EntriesOf(h, rs, {Access, Export})
  {
    hide AtomicOk, Handle, EnteredOf;
    if rs != [] {
      AtomicRuns(h, rs[..|rs| - 1]);
      HandleKeeps(h, After(h, rs[..|rs| - 1]), rs[|rs| - 1]);
      JobsCountEntries(h, After(h, rs[..|rs| - 1]), rs[|rs| - 1]);
      if FreshArtifacts(h, rs) {
        ArtifactsCountEntries(h, After(h, rs[..|rs| - 1]), rs[|rs| - 1]);
      }
    }
  }

  /** Requests not addressed by a step keep their row, so only the target can enter COMPLETED. */
  lemma OnlyTargetEnters(h: Hash, s: Store, r: Request, id: nat)
    requires Target(r) != Some(id)
    ensures !Entered(s, Handle(h, s, r), id)
    ensures id in s.records <==> id in Handle(h, s, r).records
    ensures id in s.records ==> Handle(h, s, r).records[id] == s.records[id]
  {
  }

  // ----- interleaved statements -----

  /** A request between its statements. */
  datatype Flight =
    | Updating(id: nat, edit: Edit, seen: Record)
    | Finishing(id: nat, edit: Edit, seen: Record)
    | Confirming(id: nat, token: string)
    | Fetching(artifactId: nat, token: string)

  /**
   * The tables, the requests in flight, the tokens issued for requests and for exports, and
   * what has been consumed, each time with the token that was presented.
   */
  datatype Shared = Shared(store: Store, flights: map<nat, Flight>, tokens: map<nat, string>, exports: map<nat, string>,
      verifications: seq<(nat, string)>, downloads: seq<(nat, string)>)

  datatype Step =
    | CreateRow(id: nat, requestType: RequestType, token: string, now: nat)
    | VerifyRead(request: nat, id: nat, token: string, now: nat)
    | VerifyWrite(request: nat, now: nat)
    | UpdateRead(request: nat, id: nat, edit: Edit)
    | UpdateWrite(request: nat, now: nat)
    | UpdateFinish(request: nat, artifactId: nat, token: string, now: nat)
    | DownloadRead(request: nat, artifactId: nat, token: string, now: nat)
    | DownloadWrite(request: nat, now: nat)

  predicate Enabled(h: Hash, s: Shared, step: Step) {
    match step
    case CreateRow(id, _, token, _) => id !in s.store.records && token !in s.tokens.Values
    case VerifyRead(request, id, token, now) =>
      request !in s.flights && id in s.store.records && Verifiable(h, s.store.records[id], token, now)
    case VerifyWrite(request, _) => request in s.flights && s.flights[request].Confirming?
    case UpdateRead(request, id, e) => request !in s.flights && id in s.store.records && Allowed(s.store.records[id], e)
    case UpdateWrite(request, _) => request in s.flights && s.flights[request].Updating?
    case UpdateFinish(request, artifactId, _, _) =>
      request in s.flights && s.flights[request].Finishing? && artifactId !in s.store.artifacts
    case DownloadRead(request, a, token, now) =>
      request !in s.flights && a in s.store.artifacts && Downloadable(h, s.store.artifacts[a], token, now)
    case DownloadWrite(request, _) => request in s.flights && s.flights[request].Fetching?
  }

  /** Rows are never deleted, so the row of a request in flight is there. */
  predicate Present(s: Shared) {
    && (forall q | q in s.flights ::
          if s.flights[q].Fetching? then s.flights[q].artifactId in s.store.artifacts
          else s.flights[q].id in s.store.records)
    && s.tokens.Keys == s.store.records.Keys
  }

  function Next(h: Hash, s: Shared, step: Step): Shared
    requires Present(s) && Enabled(h, s, step)
  {
    var st := s.store;
    match step
    case CreateRow(id, t, token, now) =>
      s.(store := st.(records := st.records[id := NewRecord(h, t, token, now)]), tokens := s.tokens[id := token])
    case VerifyRead(request, id, token, now) => s.(flights := s.flights[request := Confirming(id, token)])
    case VerifyWrite(request, now) =>
      var f := s.flights[request];
      s.(store := st.(records := st.records[f.id := Verified(st.records[f.id], now)]),
         flights := s.flights - {request},
         verifications := s.verifications + if st.records[f.id].verifiedAt.None? then [(f.id, f.token)] else [])
    case UpdateRead(request, id, e) => s.(flights := s.flights[request := Updating(id, e, st.records[id])])
    case UpdateWrite(request, now) =>
      var f := s.flights[request];
      s.(store := st.(records := st.records[f.id := Edited(st.records[f.id], f.seen, f.edit, now)]),
         flights := s.flights[request := Finishing(f.id, f.edit, f.seen)])
    case UpdateFinish(request, artifactId, token, now) =>
      var f := s.flights[request];
      var finished := Finished(h, st, f.id, f.seen, f.edit, artifactId, token, now);
      s.(store := finished, flights := s.flights - {request},
         exports := if artifactId in finished.artifacts then s.exports[artifactId := token] else s.exports)
    case DownloadRead(request, a, token, now) => s.(flights := s.flights[request := Fetching(a, token)])
    case DownloadWrite(request, now) =>
      var f := s.flights[request];
      var a := f.artifactId;
      s.(store := st.(artifacts := st.artifacts[a := Downloaded(st.artifacts[a], now)]),
         flights := s.flights - {request},
         downloads := s.downloads + if st.artifacts[a].downloadedAt.None? then [(a, f.token)] else [])
  }

  ghost predicate Injective(h: Hash) {
    forall a: string, b: string :: h(a) == h(b) ==> a == b
  }

  /** What was read stays true where it matters: the fields that are never cleared. */
  ghost predicate FlightOk(h: Hash, s: Shared, f: Flight)
    requires Present(s)
    requires if f.Fetching? then f.artifactId in s.store.artifacts else f.id in s.store.records
  {
    match f
    case Updating(id, e, seen) =>
      var r := s.store.records[id];
      Allowed(seen, e) && seen.requestType == r.requestType
      && (seen.identityVerifiedAt.Some? ==> r.identityVerifiedAt.Some?)
      && (seen.deletionApprovedAt.Some? ==> r.deletionApprovedAt.Some?)
    case Confirming(id, token) => h(token) == h(s.tokens[id])
    case _ => true
  }

  ghost predicate RecordsOk(h: Hash, s: Shared)
    requires Present(s)
  {
    forall id | id in s.store.records ::
      RecordOk(s.store.records[id])
          && (s.store.records[id].tokenHash.Some? ==> s.store.records[id].tokenHash == Some(h(s.tokens[id])))
  }

  ghost predicate FlightsOk(h: Hash, s: Shared)
    requires Present(s)
  {
    forall q | q in s.flights :: FlightOk(h, s, s.flights[q])
  }

  ghost predicate TokensDistinct(s: Shared) {
    forall i, j | i in s.tokens && j in s.tokens && i != j :: s.tokens[i] != s.tokens[j]
  }

  /** Each consumed verification belongs to a row that says so, and to no earlier one. */
  ghost predicate VerificationsOk(h: Hash, s: Shared)
    requires Present(s)
  {
    && (forall k | 0 <= k < |s.verifications| ::
          s.verifications[k].0 in s.store.records && s.store.records[s.verifications[k].0].verifiedAt.Some?
          && h(s.verifications[k].1) == h(s.tokens[s.verifications[k].0]))
    && (forall k, l | 0 <= k < l < |s.verifications| :: s.verifications[k].0 != s.verifications[l].0)
  }

  ghost predicate DownloadsOk(s: Shared) {
    && (forall k | 0 <= k < |s.downloads| ::
        s.downloads[k].0 in s.store.artifacts
        && s.store.artifacts[s.downloads[k].0].downloadedAt.Some?)
    && (forall k, l | 0 <= k < l < |s.downloads| :: s.downloads[k].0 != s.downloads[l].0)
  }

  /** The artifacts keep the hashes of the tokens issued with them, and only these open them. */
  ghost predicate ExportsOk(h: Hash, s: Shared) {
    && s.exports.Keys == s.store.artifacts.Keys
    && (forall a | a in s.exports :: s.store.artifacts[a].tokenHash == h(s.exports[a]))
    && (forall q | q in s.flights && s.flights[q].Fetching? ::
          s.flights[q].artifactId in s.exports && h(s.flights[q].token) == h(s.exports[s.flights[q].artifactId]))
    && (forall k | 0 <= k < |s.downloads| ::
          s.downloads[k].0 in s.exports && h(s.downloads[k].1) == h(s.exports[s.downloads[k].0]))
  }

  ghost predicate ConsumedOk(h: Hash, s: Shared)
    requires Present(s)
  {
    TokensDistinct(s) && VerificationsOk(h, s) && DownloadsOk(s) && ExportsOk(h, s)
  }

  ghost predicate Inv(h: Hash, s: Shared) {
    Present(s) && RecordsOk(h, s) && FlightsOk(h, s) && ConsumedOk(h, s)
  }

  lemma PresentKept(h: Hash, s: Shared, step: Step)
    requires Present(s) && Enabled(h, s, step)
    ensures Present(Next(h, s, step))
  {
  }

  lemma EditGuarded(r: Record, seen: Record, e: Edit, now: nat)
    requires Allowed(seen, e) && seen.requestType == r.requestType
    requires seen.identityVerifiedAt.Some? ==> r.identityVerifiedAt.Some?
    requires seen.deletionApprovedAt.Some? ==> r.deletionApprovedAt.Some?
    ensures RecordOk(Edited(r, seen, e, now)) && Edited(r, seen, e, now).tokenHash == r.tokenHash
  {
  }

  lemma RecordsKept(h: Hash, s: Shared, step: Step)
    requires Inv(h, s) && Enabled(h, s, step)
    ensures Present(Next(h, s, step)) && RecordsOk(h, Next(h, s, step))
  {
    hide ConsumedOk, Edited, Allowed, Finished;
    PresentKept(h, s, step);
    TokensKeptById(h, s, step);
    if step.UpdateWrite? {
      var f := s.flights[step.request];
      assert FlightOk(h, s, f);
      EditGuarded(s.store.records[f.id], f.seen, f.edit, step.now);
    } else if step.UpdateFinish? {
      var f := s.flights[step.request];
      FinishedKeepsRecords(h, s.store, f.id, f.seen, f.edit, step.artifactId, step.token, step.now);
    }
  }

  lemma TokensKeptById(h: Hash, s: Shared, step: Step)
    requires Present(s) && Enabled(h, s, step)
    ensures forall id | id in s.tokens :: id in Next(h, s, step).tokens && Next(h, s, step).tokens[id] == s.tokens[id]
  {
  }

  /** The fields that no statement clears or changes. */
  predicate Grows(r: Record, r': Record) {
    && r'.requestType == r.requestType
    && (r.identityVerifiedAt.Some? ==> r'.identityVerifiedAt.Some?)
    && (r.identityVerifiedAt.Some? && r.verifiedAt.Some? ==> r'.identityVerifiedAt == r.identityVerifiedAt)
    && (r.deletionApprovedAt.Some? ==> r'.deletionApprovedAt == r.deletionApprovedAt)
    && (r.verifiedAt.Some? ==> r'.verifiedAt == r.verifiedAt)
  }

  lemma StatementsGrow(r: Record, seen: Record, e: Edit, now: nat)
    ensures Grows(r, r) && Grows(r, Verified(r, now)) && Grows(r, Edited(r, seen, e, now))
  {
  }

  lemma RowsGrow(h: Hash, s: Shared, step: Step, id: nat)
    requires Present(s) && Enabled(h, s, step) && id in s.store.records
    ensures id in Next(h, s, step).store.records && Grows(s.store.records[id], Next(h, s, step).store.records[id])
  {
    hide Grows, Edited, Verified, Finished, Allowed, Verifiable;
    var r := s.store.records[id];
    match step
    case UpdateWrite(q, now) => StatementsGrow(r, s.flights[q].seen, s.flights[q].edit, now);
    case VerifyWrite(q, now) => StatementsGrow(r, r, NoEdit, now);
    case UpdateFinish(q, artifactId, token, now) =>
      var f := s.flights[q];
      FinishedKeepsRecords(h, s.store, f.id, f.seen, f.edit, artifactId, token, now);
      StatementsGrow(r, r, NoEdit, now);
    case _ => StatementsGrow(r, r, NoEdit, 0);
  }

  const NoEdit := Edit(Received, false, "", None, "", false)

  /** A request in flight is either one that stays in flight, or one that just read or wrote. */
  lemma FlightsFrom(h: Hash, s: Shared, step: Step, q: nat)
    requires Present(s) && Enabled(h, s, step) && q in Next(h, s, step).flights
    ensures var f := Next(h, s, step).flights[q];
            || (q in s.flights && f == s.flights[q])
            || f.Finishing? || f.Fetching?
            || (step.UpdateRead? && f == Updating(step.id, step.edit, s.store.records[step.id]))
            || (step.VerifyRead? && f == Confirming(step.id, step.token))
  {
    hide Finished, Edited, Verified, Allowed, Verifiable, Downloadable;
  }

  lemma FlightStays(h: Hash, s: Shared, s': Shared, f: Flight)
    requires Present(s) && Present(s')
    requires if f.Fetching? then f.artifactId in s.store.artifacts && f.artifactId in s'.store.artifacts
             else f.id in s.store.records && f.id in s'.store.records
    requires FlightOk(h, s, f)
    requires !f.Fetching? ==> Grows(s.store.records[f.id], s'.store.records[f.id]) && s'.tokens[f.id] == s.tokens[f.id]
    ensures FlightOk(h, s', f)
  {
  }

  lemma FlightKept(h: Hash, s: Shared, step: Step, q: nat)
    requires Inv(h, s) && Enabled(h, s, step)
    requires Present(Next(h, s, step)) && q in Next(h, s, step).flights
    ensures FlightOk(h, Next(h, s, step), Next(h, s, step).flights[q])
  {
    FlightsFrom(h, s, step, q);
    TokensKeptById(h, s, step);
    var s' := Next(h, s, step);
    var f := s'.flights[q];
    if q in s.flights && f == s.flights[q] {
      hide Next, Enabled, FlightOk, Grows, RecordsOk, ConsumedOk;
      if !f.Fetching? { RowsGrow(h, s, step, f.id); }
      FlightStays(h, s, s', f);
    } else if step.UpdateRead? && f.Updating? {
      hide Allowed, Verifiable, Downloadable, ConsumedOk;
      assert s'.store == s.store;
    } else if step.VerifyRead? && f.Confirming? {
      hide Allowed, Downloadable, ConsumedOk;
      assert s'.store == s.store;
    }
  }

  lemma FlightsKept(h: Hash, s: Shared, step: Step)
    requires Inv(h, s) && Enabled(h, s, step)
    ensures Present(Next(h, s, step)) && FlightsOk(h, Next(h, s, step))
  {
    PresentKept(h, s, step);
    hide Next, Enabled, Present, FlightOk, RecordsOk, ConsumedOk;
    var s' := Next(h, s, step);
    forall q | q in s'.flights
      ensures FlightOk(h, s', s'.flights[q])
    {
      FlightKept(h, s, step, q);
    }
  }

  lemma TokensKept(h: Hash, s: Shared, step: Step)
    requires Present(s) && TokensDistinct(s) && Enabled(h, s, step)
    ensures TokensDistinct(Next(h, s, step))
    ensures forall id | id in s.tokens :: id in Next(h, s, step).tokens && Next(h, s, step).tokens[id] == s.tokens[id]
  {
    assert forall i | i in s.tokens :: s.tokens[i] in s.tokens.Values;
  }

  /** Whatever is consumed stays consumed while rows grow. */
  lemma ConsumedStays(h: Hash, s: Shared, s': Shared)
    requires Present(s) && Present(s') && VerificationsOk(h, s) && s'.verifications == s.verifications
    requires forall id | id in s.store.records ::
             id in s'.store.records
             && Grows(s.store.records[id], s'.store.records[id])
    requires forall id | id in s.tokens :: id in s'.tokens && s'.tokens[id] == s.tokens[id]
    ensures VerificationsOk(h, s')
  {
    forall k | 0 <= k < |s'.verifications|
      ensures s'.verifications[k].0 in s'.store.records && s'.store.records[s'.verifications[k].0].verifiedAt.Some?
      ensures h(s'.verifications[k].1) == h(s'.tokens[s'.verifications[k].0])
    {
      assert s'.verifications[k].0 in s.store.records;
    }
  }

  /** A confirmation consumes its token only where the row was not verified yet. */
  lemma ConfirmationKept(h: Hash, s: Shared, step: Step)
    requires Inv(h, s) && Enabled(h, s, step) && step.VerifyWrite? && Present(Next(h, s, step))
    ensures VerificationsOk(h, Next(h, s, step))
  {
    hide RecordsOk, DownloadsOk, ExportsOk, TokensDistinct;
    var s' := Next(h, s, step);
    var f := s.flights[step.request];
    assert FlightOk(h, s, f);
    assert s'.store.records[f.id].verifiedAt.Some?;
    forall k | 0 <= k < |s'.verifications|
      ensures s'.verifications[k].0 in s'.store.records && s'.store.records[s'.verifications[k].0].verifiedAt.Some?
      ensures h(s'.verifications[k].1) == h(s'.tokens[s'.verifications[k].0])
    {
      if k < |s.verifications| { assert s'.verifications[k] == s.verifications[k]; }
    }
  }

  lemma VerificationsKept(h: Hash, s: Shared, step: Step)
    requires Inv(h, s) && Enabled(h, s, step)
    ensures Present(Next(h, s, step)) && VerificationsOk(h, Next(h, s, step))
  {
    PresentKept(h, s, step);
    if step.VerifyWrite? {
      ConfirmationKept(h, s, step);
    } else {
      TokensKeptById(h, s, step);
      VerificationsSame(h, s, step);
      hide Next, Enabled, Grows, RecordsOk, FlightsOk, VerificationsOk, DownloadsOk, ExportsOk, TokensDistinct;
      forall id | id in s.store.records
        ensures id in Next(h, s, step).store.records && Grows(s.store.records[id], Next(h, s, step).store.records[id])
      {
        RowsGrow(h, s, step, id);
      }
      ConsumedStays(h, s, Next(h, s, step));
    }
  }

  lemma VerificationsSame(h: Hash, s: Shared, step: Step)
    requires Present(s) && Enabled(h, s, step) && !step.VerifyWrite?
    ensures Next(h, s, step).verifications == s.verifications
  {
    hide Finished, Edited, Verified;
  }

  lemma DownloadsKept(h: Hash, s: Shared, step: Step)
    requires Present(s) && DownloadsOk(s) && Enabled(h, s, step)
    ensures DownloadsOk(Next(h, s, step))
  {
    var s' := Next(h, s, step);
    if step.DownloadWrite? {
      assert forall k | 0 <= k < |s.downloads| :: s'.downloads[k] == s.downloads[k];
    } else {
      assert s'.downloads == s.downloads;
    }
  }

  lemma ExportsKept(h: Hash, s: Shared, step: Step)
    requires Present(s) && ExportsOk(h, s) && Enabled(h, s, step)
    ensures ExportsOk(h, Next(h, s, step))
  {
    hide Edited, Verified, Allowed, Verifiable;
    var s' := Next(h, s, step);
    if step.DownloadWrite? {
      assert forall k | 0 <= k < |s.downloads| :: s'.downloads[k] == s.downloads[k];
    } else {
      assert s'.downloads == s.downloads;
    }
  }

  lemma ConsumedKept(h: Hash, s: Shared, step: Step)
    requires Inv(h, s) && Enabled(h, s, step)
    ensures Present(Next(h, s, step)) && ConsumedOk(h, Next(h, s, step))
  {
    hide Next, Enabled, VerificationsOk, DownloadsOk, ExportsOk, TokensDistinct, RecordsOk, FlightsOk;
    TokensKept(h, s, step);
    VerificationsKept(h, s, step);
    DownloadsKept(h, s, step);
    ExportsKept(h, s, step);
  }

  ghost predicate Runs(h: Hash, s: Shared, steps: seq<Step>)
    decreases |steps|
  {
    steps != [] ==> Present(s) && Enabled(h, s, steps[0]) && Runs(h, Next(h, s, steps[0]), steps[1..])
  }

  function Run(h: Hash, s: Shared, steps: seq<Step>): Shared
    requires Runs(h, s, steps)
    decreases |steps|
  {
    if steps == [] then s else Run(h, Next(h, s, steps[0]), steps[1..])
  }

  const Start := Shared(Empty, map[], map[], map[], [], [])

  lemma {:induction false} RunKeeps(h: Hash, s: Shared, steps: seq<Step>)
    requires Inv(h, s) && Runs(h, s, steps)
    ensures Inv(h, Run(h, s, steps))
    decreases |steps|
  {
    hide Present, RecordsOk, FlightsOk, ConsumedOk, Next, Enabled;
    if steps != [] {
      StepKeeps(h, s, steps[0]);
      RunKeeps(h, Next(h, s, steps[0]), steps[1..]);
    }
  }

  /**
   * Under every interleaving of reads and writes: a completed request has its identity
   * verified, a completed deletion is approved, a denied request has notes, and each
   * verification token and each export artifact is consumed at most once, and only by the
   * token that was issued for it.
   */
  lemma GuardsSurviveInterleaving(h: Hash, steps: seq<Step>)
    requires Injective(h) && Runs(h, Start, steps)
    ensures var s := Run(h, Start, steps);
            (forall id | id in s.store.records :: RecordOk(s.store.records[id]))
            && (forall k, l | 0 <= k < l < |s.verifications| :: s.verifications[k].1 != s.verifications[l].1)
            && (forall k, l | 0 <= k < l < |s.downloads| :: s.downloads[k].0 != s.downloads[l].0)
            && (forall k | 0 <= k < |s.verifications| ::
                  s.verifications[k].0 in s.tokens && s.verifications[k].1 == s.tokens[s.verifications[k].0])
            && (forall k | 0 <= k < |s.downloads| ::
                  s.downloads[k].0 in s.exports && s.downloads[k].1 == s.exports[s.downloads[k].0])
  {
    RunKeeps(h, Start, steps);
    var s := Run(h, Start, steps);
    forall k, l | 0 <= k < l < |s.verifications|
      ensures s.verifications[k].1 != s.verifications[l].1
    {
      assert s.tokens[s.verifications[k].0] != s.tokens[s.verifications[l].0];
    }
  }

  /**
   * First times stick: under every interleaving the type, the confirmation and the
   * approval of a request stay as they are once set, and so does its identity check once
   * it is confirmed.
   */
  lemma {:induction false} FirstTimesStick(h: Hash, s: Shared, steps: seq<Step>, id: nat)
    requires Runs(h, s, steps) && id in s.store.records
    ensures id in Run(h, s, steps).store.records && Grows(s.store.records[id], Run(h, s, steps).store.records[id])
    decreases |steps|
  {
    if steps != [] {
      RowsGrow(h, s, steps[0], id);
      FirstTimesStick(h, Next(h, s, steps[0]), steps[1..], id);
    }
  }

  /** No request in flight is about to release the hold. */
  ghost predicate NoRelease(s: Shared, id: nat) {
    forall q | q in s.flights && s.flights[q].Updating? && s.flights[q].id == id ::
      s.flights[q].edit.legalHold != Some(false)
  }

  lemma HoldStep(h: Hash, s: Shared, step: Step, id: nat)
    requires Present(s) && Enabled(h, s, step) && id in s.store.records && s.store.records[id].legalHoldAt.Some?
             && NoRelease(s, id)
    requires step.UpdateRead? && step.id == id ==> step.edit.legalHold != Some(false)
    ensures id in Next(h, s, step).store.records
            && Next(h, s, step).store.records[id].legalHoldAt == s.store.records[id].legalHoldAt
    ensures NoRelease(Next(h, s, step), id)
  {
    hide Finished, Allowed, Verifiable, Downloadable;
    if step.UpdateFinish? {
      var f := s.flights[step.request];
      FinishedKeepsRecords(h, s.store, f.id, f.seen, f.edit, step.artifactId, step.token, step.now);
    }
  }

  /** A legal hold stays, with its time, until an update that asks for its release. */
  lemma {:induction false} HoldStays(h: Hash, s: Shared, steps: seq<Step>, id: nat)
    requires Runs(h, s, steps) && id in s.store.records && s.store.records[id].legalHoldAt.Some? && NoRelease(s, id)
    requires forall step | step in steps :: step.UpdateRead? && step.id == id ==> step.edit.legalHold != Some(false)
    ensures id in Run(h, s, steps).store.records
            && Run(h, s, steps).store.records[id].legalHoldAt == s.store.records[id].legalHoldAt
    decreases |steps|
  {
    hide Present, Enabled, Next, NoRelease;
    if steps != [] {
      assert steps[0] in steps;
      HoldStep(h, s, steps[0], id);
      HoldStays(h, Next(h, s, steps[0]), steps[1..], id);
    }
  }

  // ----- jobs and artifacts under interleaving -----

  /** The update saw an open request of one of these types and completes it, so it adds its job or artifact. */
  predicate WillAdd(seen: Record, e: Edit, types: set<RequestType>) {
    e.status == Completed && seen.status != Completed && seen.requestType in types
  }

  /** The requests in flight that have written the row and not yet added their job or artifact. */
  function Due(flights: map<nat, Flight>, types: set<RequestType>): set<nat> {
    set q | q in flights && flights[q].Finishing? && WillAdd(flights[q].seen, flights[q].edit, types)
  }

  /** The write takes the current row from another status to COMPLETED. */
  predicate Enters(s: Shared, step: Step, types: set<RequestType>) {
    step.UpdateWrite? && step.request in s.flights && s.flights[step.request].Updating?
    && var f := s.flights[step.request];
       f.id in s.store.records && f.edit.status == Completed
       && s.store.records[f.id].status != Completed && s.store.records[f.id].requestType in types
  }

  /** The write belongs to an update that will add, whatever the current row says. */
  predicate WritesToAdd(s: Shared, step: Step, types: set<RequestType>) {
    step.UpdateWrite? && step.request in s.flights && s.flights[step.request].Updating?
    && WillAdd(s.flights[step.request].seen, s.flights[step.request].edit, types)
  }

  /** What the run has added and is about to add, entries into COMPLETED, and where the two differ. */
  datatype Ledger = Ledger(entries: nat, doubled: nat, missed: nat)

  /** Doubled: adds although the row was completed meanwhile. Missed: adds nothing although the row was reopened. */
  function Count(l: Ledger, s: Shared, step: Step, types: set<RequestType>): Ledger {
    Ledger(l.entries + (if Enters(s, step, types) then 1 else 0),
           l.doubled + (if WritesToAdd(s, step, types) && !Enters(s, step, types) then 1 else 0),
           l.missed + (if Enters(s, step, types) && !WritesToAdd(s, step, types) then 1 else 0))
  }

  function CountAll(l: Ledger, h: Hash, s: Shared, steps: seq<Step>, types: set<RequestType>): Ledger
    requires Runs(h, s, steps)
    decreases |steps|
  {
    if steps == [] then l else CountAll(Count(l, s, steps[0], types), h, Next(h, s, steps[0]), steps[1..], types)
  }

  /** A step takes a row into COMPLETED exactly when it is such a write, and then only the row of its flight. */
  lemma EntersExactly(h: Hash, s: Shared, step: Step, id: nat, types: set<RequestType>)
    requires Present(s) && Enabled(h, s, step) && id in Next(h, s, step).store.records
    ensures Entered(s.store, Next(h, s, step).store, id) && Next(h, s, step).store.records[id].requestType in types
            <==> Enters(s, step, types) && s.flights[step.request].id == id
  {
    OnlyWritten(h, s, step);
    hide Finished, Allowed, Verifiable, Downloadable;
    if step.UpdateFinish? {
      var f := s.flights[step.request];
      FinishedKeepsRecords(h, s.store, f.id, f.seen, f.edit, step.artifactId, step.token, step.now);
    }
  }

  lemma DueAfter(flights: map<nat, Flight>, q: nat, f: Flight, types: set<RequestType>)
    requires q !in Due(flights, types)
    ensures |Due(flights[q := f], types)|
            == |Due(flights, types)| + if f.Finishing? && WillAdd(f.seen, f.edit, types) then 1 else 0
  {
    hide WillAdd;
    var before := Due(flights, types);
    assert Due(flights[q := f], types)
           == if f.Finishing? && WillAdd(f.seen, f.edit, types) then before + {q} else before;
  }

  lemma DueWithout(flights: map<nat, Flight>, q: nat, types: set<RequestType>)
    ensures |Due(flights - {q}, types)| == |Due(flights, types)| - if q in Due(flights, types) then 1 else 0
  {
    hide WillAdd;
    assert Due(flights - {q}, types) == Due(flights, types) - {q};
  }

  lemma DueStep(h: Hash, s: Shared, step: Step, types: set<RequestType>)
    requires Present(s) && Enabled(h, s, step)
    ensures |Due(Next(h, s, step).flights, types)|
            == |Due(s.flights, types)| + (if WritesToAdd(s, step, types) then 1 else 0)
               - (if step.UpdateFinish? && step.request in Due(s.flights, types) then 1 else 0)
  {
    hide Finished, Edited, Verified, Allowed, Verifiable, Downloadable;
    match step
    case VerifyRead(q, id, token, _) => DueAfter(s.flights, q, Confirming(id, token), types);
    case VerifyWrite(q, _) => DueWithout(s.flights, q, types);
    case UpdateRead(q, id, e) => DueAfter(s.flights, q, Updating(id, e, s.store.records[id]), types);
    case UpdateWrite(q, _) =>
      var f := s.flights[q];
      DueAfter(s.flights, q, Finishing(f.id, f.edit, f.seen), types);
    case UpdateFinish(q, _, _, _) => DueWithout(s.flights, q, types);
    case DownloadRead(q, a, token, _) => DueAfter(s.flights, q, Fetching(a, token), types);
    case DownloadWrite(q, _) => DueWithout(s.flights, q, types);
    case CreateRow(_, _, _, _) =>
  }

  lemma AddedStep(h: Hash, s: Shared, step: Step)
    requires Present(s) && Enabled(h, s, step)
    ensures |Next(h, s, step).store.jobs|
            == |s.store.jobs| + if step.UpdateFinish? && step.request in Due(s.flights, {Deletion}) then 1 else 0
    ensures |Next(h, s, step).store.artifacts|
            == |s.store.artifacts|
               + if step.UpdateFinish? && step.request in Due(s.flights, {Access, Export}) then 1 else 0
  {
    hide Edited, Verified, Allowed, Verifiable, Downloadable;
    match step
    case UpdateFinish(q, artifactId, token, now) =>
      var f := s.flights[q];
      OneMoreArtifact(s.store.artifacts, artifactId, Artifact(f.id, h(token), now + DAY_MS, None));
    case DownloadWrite(q, now) =>
      var a := s.flights[q].artifactId;
      OneMoreArtifact(s.store.artifacts, a, Downloaded(s.store.artifacts[a], now));
    case _ =>
  }

  /** Added and due on one side, entries and doubled on the other, with the missed ones. */
  predicate Settles(l: Ledger, added: nat, due: nat) {
    added + due + l.missed == l.entries + l.doubled
  }

  lemma {:induction false} LedgerRun(h: Hash, s: Shared, steps: seq<Step>, jobs: Ledger, exports: Ledger)
    requires Present(s) && Runs(h, s, steps)
    requires Settles(jobs, |s.store.jobs|, |Due(s.flights, {Deletion})|)
    requires Settles(exports, |s.store.artifacts|, |Due(s.flights, {Access, Export})|)
    ensures var s' := Run(h, s, steps);
            && Settles(CountAll(jobs, h, s, steps, {Deletion}), |s'.store.jobs|, |Due(s'.flights, {Deletion})|)
            && Settles(CountAll(exports, h, s, steps, {Access, Export}),
                       |s'.store.artifacts|, |Due(s'.flights, {Access, Export})|)
    decreases |steps|
  {
    hide Next, Enabled, Present, Due, Enters, WritesToAdd;
    if steps != [] {
      PresentKept(h, s, steps[0]);
      DueStep(h, s, steps[0], {Deletion});
      DueStep(h, s, steps[0], {Access, Export});
      AddedStep(h, s, steps[0]);
      LedgerRun(h, Next(h, s, steps[0]), steps[1..],
                Count(jobs, s, steps[0], {Deletion}), Count(exports, s, steps[0], {Access, Export}));
    }
  }

  lemma NothingDue()
    ensures Present(Start)
    ensures Settles(Ledger(0, 0, 0), |Start.store.jobs|, |Due(Start.flights, {Deletion})|)
    ensures Settles(Ledger(0, 0, 0), |Start.store.artifacts|, |Due(Start.flights, {Access, Export})|)
  {
    assert Due(Start.flights, {Deletion}) == {} && Due(Start.flights, {Access, Export}) == {};
  }

  /**
   * Under every interleaving: deletion jobs, stored or due, are the entries of deletions
   * into COMPLETED, plus the writes of updates that saw the request open when it no longer
   * was, less those of updates that saw it completed when it had been reopened; the same
   * for export artifacts of access and export requests. With nothing due the numbers are
   * equal exactly when as many were doubled as missed.
   */
  lemma AddedUnderInterleaving(h: Hash, steps: seq<Step>)
    requires Runs(h, Start, steps)
    ensures var s := Run(h, Start, steps);
            var jobs := CountAll(Ledger(0, 0, 0), h, Start, steps, {Deletion});
            var exports := CountAll(Ledger(0, 0, 0), h, Start, steps, {Access, Export});
            && Settles(jobs, |s.store.jobs|, |Due(s.flights, {Deletion})|)
            && Settles(exports, |s.store.artifacts|, |Due(s.flights, {Access, Export})|)
            && (Due(s.flights, {Deletion}) == {} ==> (|s.store.jobs| == jobs.entries <==> jobs.doubled == jobs.missed))
            && (Due(s.flights, {Access, Export}) == {} ==>
                  (|s.store.artifacts| == exports.entries <==> exports.doubled == exports.missed))
  {
    NothingDue();
    hide Run, Runs, Due, CountAll, Next, Enabled;
    LedgerRun(h, Start, steps, Ledger(0, 0, 0), Ledger(0, 0, 0));
  }

  // ----- which interleavings keep the other two guards -----

  predicate HoldOk(r: Record) {
    r.status == Completed && r.requestType == Deletion ==> r.legalHoldAt.None?
  }

  predicate TimeOk(r: Record) {
    r.completedAt.Some? <==> Terminal(r.status)
  }

  ghost predicate AllHoldsOk(s: Shared) {
    forall id | id in s.store.records :: HoldOk(s.store.records[id])
  }

  ghost predicate AllTimesOk(s: Shared) {
    forall id | id in s.store.records :: TimeOk(s.store.records[id])
  }

  /** An update that completes a deletion meets a row without a hold, or releases the hold itself. */
  predicate MeetsNoHold(h: Hash, s: Shared, step: Step)
    requires Present(s) && Enabled(h, s, step)
  {
    step.UpdateWrite? ==>
      var f := s.flights[step.request];
      var r := s.store.records[f.id];
      f.edit.status == Completed && r.requestType == Deletion ==> r.legalHoldAt.None? || f.edit.legalHold == Some(false)
  }

  /** A confirmation that takes effect meets a row whose status is not terminal. */
  predicate MeetsOpen(h: Hash, s: Shared, step: Step)
    requires Present(s) && Enabled(h, s, step)
  {
    step.VerifyWrite? ==>
      var r := s.store.records[s.flights[step.request].id];
      r.verifiedAt.None? ==> !Terminal(r.status)
  }

  lemma WriteMeetsHold(r: Record, seen: Record, e: Edit, now: nat)
    requires Allowed(seen, e) && seen.requestType == r.requestType
    ensures HoldOk(Edited(r, seen, e, now))
            <==> (e.status == Completed && r.requestType == Deletion
                ==> r.legalHoldAt.None? || e.legalHold == Some(false))
    ensures TimeOk(Edited(r, seen, e, now))
  {
  }

  lemma ConfirmMeetsOpen(r: Record, now: nat)
    ensures HoldOk(r) ==> HoldOk(Verified(r, now))
    ensures TimeOk(r) ==> (TimeOk(Verified(r, now)) <==> (r.verifiedAt.None? ==> !Terminal(r.status)))
  {
  }

  /** Which row a step writes, if any; all other rows stay as they are. */
  function Written(s: Shared, step: Step): Option<nat> {
    match step
    case CreateRow(id, _, _, _) => Some(id)
    case VerifyWrite(request, _) =>
      if request in s.flights && s.flights[request].Confirming? then Some(s.flights[request].id) else None
    case UpdateWrite(request, _) =>
      if request in s.flights && s.flights[request].Updating? then Some(s.flights[request].id) else None
    case _ => None
  }

  lemma OnlyWritten(h: Hash, s: Shared, step: Step)
    requires Present(s) && Enabled(h, s, step)
    ensures var s' := Next(h, s, step);
            forall id | Written(s, step) != Some(id) ::
              (id in s.store.records <==> id in s'.store.records)
              && (id in s.store.records ==> s'.store.records[id] == s.store.records[id])
  {
    hide Finished, Edited, Verified, Allowed, Verifiable, Downloadable;
    if step.UpdateFinish? {
      var f := s.flights[step.request];
      FinishedKeepsRecords(h, s.store, f.id, f.seen, f.edit, step.artifactId, step.token, step.now);
    }
  }

  lemma WrittenRow(h: Hash, s: Shared, step: Step)
    requires Inv(h, s) && Enabled(h, s, step) && Written(s, step).Some?
    ensures var s' := Next(h, s, step);
            var id := Written(s, step).value;
            id in s'.store.records
            && ((id in s.store.records ==> HoldOk(s.store.records[id])) ==>
                  (HoldOk(s'.store.records[id]) <==> MeetsNoHold(h, s, step)))
            && ((id in s.store.records ==> TimeOk(s.store.records[id])) ==>
                  (TimeOk(s'.store.records[id]) <==> MeetsOpen(h, s, step)))
  {
    hide RecordsOk, ConsumedOk, Edited, Verified, Allowed;
    match step
    case CreateRow(id, t, token, now) =>
    case VerifyWrite(request, now) => ConfirmMeetsOpen(s.store.records[s.flights[request].id], now);
    case UpdateWrite(request, now) =>
      var f := s.flights[request];
      assert FlightOk(h, s, f);
      WriteMeetsHold(s.store.records[f.id], f.seen, f.edit, now);
  }

  lemma StepHolds(h: Hash, s: Shared, step: Step)
    requires Inv(h, s) && Enabled(h, s, step) && AllHoldsOk(s)
    ensures AllHoldsOk(Next(h, s, step)) <==> MeetsNoHold(h, s, step)
  {
    OnlyWritten(h, s, step);
    if Written(s, step).Some? {
      WrittenRow(h, s, step);
    } else {
      assert MeetsNoHold(h, s, step);
    }
    hide Next, Enabled, Inv, HoldOk, MeetsNoHold;
    var s' := Next(h, s, step);
    if MeetsNoHold(h, s, step) {
      forall id | id in s'.store.records
        ensures HoldOk(s'.store.records[id])
      {
        assert Written(s, step) != Some(id) ==> id in s.store.records;
      }
    }
  }

  lemma StepTimes(h: Hash, s: Shared, step: Step)
    requires Inv(h, s) && Enabled(h, s, step) && AllTimesOk(s)
    ensures AllTimesOk(Next(h, s, step)) <==> MeetsOpen(h, s, step)
  {
    OnlyWritten(h, s, step);
    if Written(s, step).Some? {
      WrittenRow(h, s, step);
    } else {
      assert MeetsOpen(h, s, step);
    }
    hide Next, Enabled, Inv, TimeOk, MeetsOpen;
    var s' := Next(h, s, step);
    if MeetsOpen(h, s, step) {
      forall id | id in s'.store.records
        ensures TimeOk(s'.store.records[id])
      {
        assert Written(s, step) != Some(id) ==> id in s.store.records;
      }
    }
  }

  ghost predicate AlwaysHoldsOk(h: Hash, s: Shared, steps: seq<Step>)
    requires Runs(h, s, steps)
    decreases |steps|
  {
    AllHoldsOk(s) && (steps != [] ==> AlwaysHoldsOk(h, Next(h, s, steps[0]), steps[1..]))
  }

  ghost predicate AlwaysTimesOk(h: Hash, s: Shared, steps: seq<Step>)
    requires Runs(h, s, steps)
    decreases |steps|
  {
    AllTimesOk(s) && (steps != [] ==> AlwaysTimesOk(h, Next(h, s, steps[0]), steps[1..]))
  }

  ghost predicate AlwaysMeetsNoHold(h: Hash, s: Shared, steps: seq<Step>)
    requires Runs(h, s, steps)
    decreases |steps|
  {
    steps != [] ==> MeetsNoHold(h, s, steps[0]) && AlwaysMeetsNoHold(h, Next(h, s, steps[0]), steps[1..])
  }

  ghost predicate AlwaysMeetsOpen(h: Hash, s: Shared, steps: seq<Step>)
    requires Runs(h, s, steps)
    decreases |steps|
  {
    steps != [] ==> MeetsOpen(h, s, steps[0]) && AlwaysMeetsOpen(h, Next(h, s, steps[0]), steps[1..])
  }

  lemma StepKeeps(h: Hash, s: Shared, step: Step)
    requires Inv(h, s) && Enabled(h, s, step)
    ensures Inv(h, Next(h, s, step))
  {
    hide Present, RecordsOk, FlightsOk, ConsumedOk, Next, Enabled;
    RecordsKept(h, s, step);
    FlightsKept(h, s, step);
    ConsumedKept(h, s, step);
  }

  lemma {:induction false} HoldsExactly(h: Hash, s: Shared, steps: seq<Step>)
    requires Inv(h, s) && AllHoldsOk(s) && Runs(h, s, steps)
    ensures AlwaysHoldsOk(h, s, steps) <==> AlwaysMeetsNoHold(h, s, steps)
    decreases |steps|
  {
    hide Inv, AllHoldsOk, MeetsNoHold, Next, Enabled, Present;
    if steps != [] {
      StepHolds(h, s, steps[0]);
      StepKeeps(h, s, steps[0]);
      var s' := Next(h, s, steps[0]);
      if MeetsNoHold(h, s, steps[0]) {
        HoldsExactly(h, s', steps[1..]);
      } else {
        assert !AlwaysHoldsOk(h, s', steps[1..]);
      }
    }
  }

  lemma {:induction false} TimesExactly(h: Hash, s: Shared, steps: seq<Step>)
    requires Inv(h, s) && AllTimesOk(s) && Runs(h, s, steps)
    ensures AlwaysTimesOk(h, s, steps) <==> AlwaysMeetsOpen(h, s, steps)
    decreases |steps|
  {
    hide Inv, AllTimesOk, MeetsOpen, Next, Enabled, Present;
    if steps != [] {
      StepTimes(h, s, steps[0]);
      StepKeeps(h, s, steps[0]);
      var s' := Next(h, s, steps[0]);
      if MeetsOpen(h, s, steps[0]) {
        TimesExactly(h, s', steps[1..]);
      } else {
        assert !AlwaysTimesOk(h, s', steps[1..]);
      }
    }
  }

  /**
   * Exactly which interleavings never show a completed deletion under legal hold: those
   * in which every update that completes a deletion meets a row without a hold or releases
   * it. And exactly which ones have completedAt set in the terminal statuses and no other:
   * those in which no confirmation takes effect on a row in a terminal status.
   */
  lemma InterleavingsKeepGuards(h: Hash, steps: seq<Step>)
    requires Runs(h, Start, steps)
    ensures AlwaysHoldsOk(h, Start, steps) <==> AlwaysMeetsNoHold(h, Start, steps)
    ensures AlwaysTimesOk(h, Start, steps) <==> AlwaysMeetsOpen(h, Start, steps)
  {
    HoldsExactly(h, Start, steps);
    TimesExactly(h, Start, steps);
  }

  // ----- what does not survive -----

  lemma TwoSteps(h: Hash, s: Shared, a: Step, b: Step)
    requires Present(s) && Enabled(h, s, a)
    requires Present(Next(h, s, a)) && Enabled(h, Next(h, s, a), b)
    ensures Runs(h, s, [a, b]) && Run(h, s, [a, b]) == Next(h, Next(h, s, a), b)
  {
    assert [a, b][1..] == [b] && [b][1..] == [];
    var s' := Next(h, s, a);
    assert Runs(h, Next(h, s', b), []);
    assert Runs(h, s', [b]) && Run(h, s', [b]) == Next(h, s', b);
  }

  lemma {:induction false} RunThen(h: Hash, s: Shared, xs: seq<Step>, ys: seq<Step>)
    requires Runs(h, s, xs) && Runs(h, Run(h, s, xs), ys)
    ensures Runs(h, s, xs + ys) && Run(h, s, xs + ys) == Run(h, Run(h, s, xs), ys)
    decreases |xs|
  {
    if xs == [] {
      assert xs + ys == ys;
    } else {
      assert (xs + ys)[1..] == xs[1..] + ys;
      RunThen(h, Next(h, s, xs[0]), xs[1..], ys);
    }
  }

  lemma FourSteps(h: Hash, s: Shared, a: Step, b: Step, c: Step, d: Step)
    requires Runs(h, s, [a, b]) && Runs(h, Run(h, s, [a, b]), [c, d])
    ensures Runs(h, s, [a, b, c, d]) && Run(h, s, [a, b, c, d]) == Run(h, Run(h, s, [a, b]), [c, d])
  {
    RunThen(h, s, [a, b], [c, d]);
    assert [a, b] + [c, d] == [a, b, c, d];
  }

  /**
   * Two updates that read the same deletion request, one to complete it and one to hold
   * it: when the hold is written first, the completed deletion is under legal hold.
   */
  lemma HoldRacesCompletion(h: Hash, s: Shared, id: nat, q: nat, q': nat, complete: Edit, hold: Edit, now: nat)
    requires Present(s) && id in s.store.records && s.store.records[id].requestType == Deletion
    requires q !in s.flights && q' !in s.flights && q != q'
    requires complete.status == Completed && complete.legalHold.None? && Allowed(s.store.records[id], complete)
    requires hold.legalHold == Some(true) && Allowed(s.store.records[id], hold)
    ensures var steps :=
            [UpdateRead(q, id, complete), UpdateRead(q', id, hold), UpdateWrite(q', now), UpdateWrite(q, now)];
            Runs(h, s, steps) && id in Run(h, s, steps).store.records
            && Run(h, s, steps).store.records[id].status == Completed
                && Run(h, s, steps).store.records[id].legalHoldAt.Some?
  {
    hide Allowed;
    var s1 := Next(h, s, UpdateRead(q, id, complete));
    var s2 := Next(h, s1, UpdateRead(q', id, hold));
    TwoSteps(h, s, UpdateRead(q, id, complete), UpdateRead(q', id, hold));
    PresentKept(h, s2, UpdateWrite(q', now));
    TwoSteps(h, s2, UpdateWrite(q', now), UpdateWrite(q, now));
    FourSteps(h, s, UpdateRead(q, id, complete), UpdateRead(q', id, hold), UpdateWrite(q', now), UpdateWrite(q, now));
  }

  /**
   * A confirmation that read the request before it was completed and writes afterwards
   * reopens it and leaves completedAt set.
   */
  lemma ConfirmationRacesCompletion(h: Hash, s: Shared, id: nat, q: nat, q': nat, complete: Edit, token: string,
      now: nat)
    requires Present(s) && id in s.store.records && Verifiable(h, s.store.records[id], token, now)
    requires q !in s.flights && q' !in s.flights && q != q'
    requires complete.status == Completed && Allowed(s.store.records[id], complete)
    ensures var steps :=
            [VerifyRead(q', id, token, now), UpdateRead(q, id, complete), UpdateWrite(q, now), VerifyWrite(q', now)];
            Runs(h, s, steps) && id in Run(h, s, steps).store.records
            && Run(h, s, steps).store.records[id].status == Received
                && Run(h, s, steps).store.records[id].completedAt.Some?
  {
    hide Allowed;
    var s1 := Next(h, s, VerifyRead(q', id, token, now));
    var s2 := Next(h, s1, UpdateRead(q, id, complete));
    TwoSteps(h, s, VerifyRead(q', id, token, now), UpdateRead(q, id, complete));
    PresentKept(h, s2, UpdateWrite(q, now));
    TwoSteps(h, s2, UpdateWrite(q, now), VerifyWrite(q', now));
    FourSteps(h, s, VerifyRead(q', id, token, now), UpdateRead(q, id, complete), UpdateWrite(q, now),
        VerifyWrite(q', now));
  }
}
