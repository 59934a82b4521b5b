/** The mock upload-session service: an in-memory list of sessions that are created
    active, revised by merging a patch, and completed. */
module SessionStore {

  import opened Wrappers
  import opened Lists

  const ActiveStatus: string := "active"
  const CompletedStatus: string := "completed"
  const SessionNotFound: string := "Upload session not found"

  /** One stored session. `endTime` is `None` where the service stores `null`;
      `updatedAt` and `completedAt` are `None` until the first update or completion. */
  datatype Session = Session(
    id: string,
    totalFiles: nat,
    totalSize: nat,
    uploadedFiles: nat,
    uploadedSize: nat,
    startTime: int,
    endTime: Option<int>,
    status: string,
    createdAt: int,
    updatedAt: Option<int>,
    completedAt: Option<int>)

  /** What `createUploadSession` reads from its argument. */
  datatype SessionData = SessionData(totalFiles: nat, totalSize: nat, startTime: int)

  /** An object spread over a session: each present field replaces the stored one. */
  datatype Patch = Patch(
    id: Option<string>,
    totalFiles: Option<nat>,
    totalSize: Option<nat>,
    uploadedFiles: Option<nat>,
    uploadedSize: Option<nat>,
    startTime: Option<int>,
    endTime: Option<int>,
    status: Option<string>,
    createdAt: Option<int>)

  const EmptyPatch := Patch(None, None, None, None, None, None, None, None, None)

  function SessionId(s: Session): string { s.id }

  predicate IsActive(s: Session) { s.status == ActiveStatus }

  function Pick<T>(later: Option<T>, earlier: T): T {
    if later.Some? then later.value else earlier
  }

  function PickOption<T>(later: Option<T>, earlier: Option<T>): Option<T> {
    if later.Some? then later else earlier
  }

  /** A new session: its counters at zero, no end time, active. */
  function NewSession(data: SessionData, id: string, now: int): (s: Session)
    ensures IsActive(s) && s.id == id && s.createdAt == now
    ensures s.totalFiles == data.totalFiles && s.totalSize == data.totalSize
    ensures s.startTime == data.startTime
    ensures s.uploadedFiles == 0 && s.uploadedSize == 0 && s.endTime.None?
  {
    Session(id, data.totalFiles, data.totalSize, 0, 0, data.startTime, None, ActiveStatus,
      now, None, None)
  }

  /** `{ ...s, ...p }` */
  function Merge(s: Session, p: Patch): Session {
    Session(
      Pick(p.id, s.id),
      Pick(p.totalFiles, s.totalFiles),
      Pick(p.totalSize, s.totalSize),
      Pick(p.uploadedFiles, s.uploadedFiles),
      Pick(p.uploadedSize, s.uploadedSize),
      Pick(p.startTime, s.startTime),
      PickOption(p.endTime, s.endTime),
      Pick(p.status, s.status),
      Pick(p.createdAt, s.createdAt),
      s.updatedAt,
      s.completedAt)
  }

  /** Two spreads in a row: the later patch's fields win. */
  function Then(p: Patch, q: Patch): Patch {
    Patch(
      PickOption(q.id, p.id),
      PickOption(q.totalFiles, p.totalFiles),
      PickOption(q.totalSize, p.totalSize),
      PickOption(q.uploadedFiles, p.uploadedFiles),
      PickOption(q.uploadedSize, p.uploadedSize),
      PickOption(q.startTime, p.startTime),
      PickOption(q.endTime, p.endTime),
      PickOption(q.status, p.status),
      PickOption(q.createdAt, p.createdAt))
  }

  /** An empty patch changes nothing. */
  lemma MergeEmpty(s: Session)
    ensures Merge(s, EmptyPatch) == s
  {
  }

  /** Spreading `p` then `q` is spreading their combination, where `q` wins; in
      particular spreading the same patch twice is spreading it once. */
  lemma MergeThen(s: Session, p: Patch, q: Patch)
    ensures Merge(Merge(s, p), q) == Merge(s, Then(p, q))
    ensures Merge(Merge(s, p), p) == Merge(s, p)
  {
  }

  /** A field the patch leaves out keeps its stored value; the two stamps, which no
      patch carries, are always kept. */
  lemma MergeKeepsAbsent(s: Session, p: Patch)
    ensures p.id.None? ==> Merge(s, p).id == s.id
    ensures p.totalFiles.None? ==> Merge(s, p).totalFiles == s.totalFiles
    ensures p.totalSize.None? ==> Merge(s, p).totalSize == s.totalSize
    ensures p.uploadedFiles.None? ==> Merge(s, p).uploadedFiles == s.uploadedFiles
    ensures p.uploadedSize.None? ==> Merge(s, p).uploadedSize == s.uploadedSize
    ensures p.startTime.None? ==> Merge(s, p).startTime == s.startTime
    ensures p.endTime.None? ==> Merge(s, p).endTime == s.endTime
    ensures p.status.None? ==> Merge(s, p).status == s.status
    ensures p.createdAt.None? ==> Merge(s, p).createdAt == s.createdAt
    ensures Merge(s, p).updatedAt == s.updatedAt && Merge(s, p).completedAt == s.completedAt
  {
  }

  /** A field the patch carries replaces the stored one. */
  lemma MergeTakesPresent(s: Session, p: Patch)
    ensures p.id.Some? ==> Merge(s, p).id == p.id.value
    ensures p.totalFiles.Some? ==> Merge(s, p).totalFiles == p.totalFiles.value
    ensures p.totalSize.Some? ==> Merge(s, p).totalSize == p.totalSize.value
    ensures p.uploadedFiles.Some? ==> Merge(s, p).uploadedFiles == p.uploadedFiles.value
    ensures p.uploadedSize.Some? ==> Merge(s, p).uploadedSize == p.uploadedSize.value
    ensures p.startTime.Some? ==> Merge(s, p).startTime == p.startTime.value
    ensures p.endTime.Some? ==> Merge(s, p).endTime == p.endTime
    ensures p.status.Some? ==> Merge(s, p).status == p.status.value
    ensures p.createdAt.Some? ==> Merge(s, p).createdAt == p.createdAt.value
  {
  }

  /** `updateUploadSession`'s new record: the patch merged, stamped `updatedAt`. */
  function Revised(s: Session, p: Patch, now: int): (r: Session)
    ensures r.updatedAt == Some(now) && r.completedAt == s.completedAt
    ensures r.status == Pick(p.status, s.status)
  {
    Merge(s, p).(updatedAt := Some(now))
  }

  /** `completeUploadSession`'s new record: the patch merged, then marked completed
      whatever the patch said, stamped `completedAt`. */
  function Closed(s: Session, p: Patch, now: int): (r: Session)
    ensures r.status == CompletedStatus && !IsActive(r)
    ensures r.completedAt == Some(now) && r.updatedAt == s.updatedAt
    ensures r.id == Pick(p.id, s.id) && r.uploadedFiles == Pick(p.uploadedFiles, s.uploadedFiles)
  {
    Merge(s, p).(status := CompletedStatus, completedAt := Some(now))
  }

  /** Creating a session adds it to the active list, at the end. */
  lemma CreatedIsActive(ss: seq<Session>, data: SessionData, id: string, now: int)
    ensures Filter(ss + [NewSession(data, id, now)], IsActive) ==
      Filter(ss, IsActive) + [NewSession(data, id, now)]
  {
    var s := NewSession(data, id, now);
    FilterAppend(ss, [s], IsActive);
    assert Filter([s], IsActive) == [s] + Filter([], IsActive);
  }

  /** Completing the session at `k` takes it off the active list: the list shrinks by
      one when it was active and stays the same length otherwise, and the completed
      record is not on it. */
  lemma CompletedLeavesActive(ss: seq<Session>, k: nat, p: Patch, now: int)
    requires k < |ss|
    ensures var after := ss[k := Closed(ss[k], p, now)];
      |Filter(after, IsActive)| == |Filter(ss, IsActive)| - (if IsActive(ss[k]) then 1 else 0) &&
      Closed(ss[k], p, now) !in Filter(after, IsActive)
  {
    var c := Closed(ss[k], p, now);
    var after := ss[k := c];
    FilterReplace(ss, k, c, IsActive);
    FilterMembers(after, IsActive);
  }

  class UploadSessionService {
    var sessions: seq<Session>

    constructor()
      ensures sessions == []
    {
      sessions := [];
    }

    /** `createUploadSession`, with the generated id and the clock passed in. */
    method CreateUploadSession(data: SessionData, id: string, now: int) returns (s: Session)
      modifies this
      ensures s == NewSession(data, id, now)
      ensures sessions == old(sessions) + [s]
    {
      s := Session(id, data.totalFiles, data.totalSize, 0, 0, data.startTime, None,
        ActiveStatus, now, None, None);
      sessions := sessions + [s];
    }

    /** `updateUploadSession`: merge the patch into the first session with the id, or
        fail with "Upload session not found" and leave the store alone. */
    method UpdateUploadSession(id: string, updates: Patch, now: int) returns (r: Result<Session>)
      modifies this
      ensures var k := FirstIndex(old(sessions), SessionId, id);
        k == -1 ==> r == Failure(SessionNotFound) && sessions == old(sessions)
      ensures var k := FirstIndex(old(sessions), SessionId, id);
        k != -1 ==>
          sessions == old(sessions)[k := Revised(old(sessions)[k], updates, now)] && r == Success(sessions[k])
    {
      var k := FirstIndex(sessions, SessionId, id);
      if k == -1 {
        r := Failure(SessionNotFound);
        return;
      }
      sessions := sessions[k := Merge(sessions[k], updates).(updatedAt := Some(now))];
      r := Success(sessions[k]);
    }

    /** `completeUploadSession`: merge the completion data into the first session with
        the id and mark it completed, or fail and leave the store alone. */
    method CompleteUploadSession(id: string, completionData: Patch, now: int) returns (r: Result<Session>)
      modifies this
      ensures var k := FirstIndex(old(sessions), SessionId, id);
        k == -1 ==> r == Failure(SessionNotFound) && sessions == old(sessions)
      ensures var k := FirstIndex(old(sessions), SessionId, id);
        k != -1 ==>
          sessions == old(sessions)[k := Closed(old(sessions)[k], completionData, now)] && r == Success(sessions[k])
    {
      var k := FirstIndex(sessions, SessionId, id);
      if k == -1 {
        r := Failure(SessionNotFound);
        return;
      }
      sessions := sessions[k := Merge(sessions[k], completionData).(status := CompletedStatus,
        completedAt := Some(now))];
      r := Success(sessions[k]);
    }

    /** `getById`: the first session with the id, or `None`. */
    method GetById(id: string) returns (r: Option<Session>)
      ensures r == Find(sessions, SessionId, id)
    {
      r := Find(sessions, SessionId, id);
    }

    /** `getAll`: a copy of the whole list. */
    method GetAll() returns (r: seq<Session>)
      ensures r == sessions
    {
      r := sessions;
    }

    /** `getActiveSessions`: the active sessions, in order. */
    method GetActiveSessions() returns (r: seq<Session>)
      ensures r == Filter(sessions, IsActive)
    {
      r := Filter(sessions, IsActive);
    }

    /** `delete`: cut out the first session with the id and return it, or `None`. */
    method Delete(id: string) returns (r: Option<Session>)
      modifies this
      ensures (sessions, r) == DeleteFirst(old(sessions), SessionId, id)
    {
      var k := FirstIndex(sessions, SessionId, id);
      if k != -1 {
        r := Some(sessions[k]);
        sessions := sessions[..k] + sessions[k + 1..];
      } else {
        r := None;
      }
    }
  }
}
