/** The requests that move blobs: direct puts, completing and aborting uploads, and the sweep of
    expired sessions, while every other request goes on in between. */
module BlobService {
  import opened Base
  import opened Blob

  /** One part a client says it uploaded. */
  datatype Part = Part(number: int, tag: string)

  datatype Completed = Uri(digest: Digest) | NotFound | InvalidRequest | Missing | Mismatch | Unavailable

  /** The steps of the request that holds the row lock of a session. */
  predicate Touches(step: Step, id: Id) {
    match step
    case LockComplete(x) => x == id
    case Verify(x) => x == id
    case InsertRow(x) => x == id
    case CommitComplete(x) => x == id
    case LockAbort(x) => x == id
    case RemoveStaged(x, _) => x == id
    case RemovalLost(x, _) => x == id
    case CommitAbort(x) => x == id
    case Rollback(x) => x == id
    case _ => false
  }

  predicate TouchesPut(step: Step, p: Id) {
    match step
    case PutInsert(x) => x == p
    case PutForgotten(x) => x == p
    case _ => false
  }

  function PartCount(size: nat): nat {
    (size + PART_SIZE - 1) / PART_SIZE
  }

  /** The number of parts is the least that holds the content, at most 10000, and all but the last
      part are full. */
  lemma PartsHoldTheContent(size: nat)
    ensures size <= PartCount(size) * PART_SIZE
    ensures forall n: nat :: size <= n * PART_SIZE ==> PartCount(size) <= n
    ensures PartCount(size) > 0 ==> 0 < size - (PartCount(size) - 1) * PART_SIZE <= PART_SIZE
    ensures size <= MAX_UPLOAD ==> PartCount(size) <= 10000
  {
  }

  /** White space as trimming understands it. */
  predicate IsSpace(c: char) {
    || '\t' <= c <= '\r' || c == ' ' || c == '\U{85}' || c == '\U{A0}' || c == '\U{1680}' || '\U{2000}' <= c <= '\U{200A}'
    || c == '\U{2028}' || c == '\U{2029}' || c == '\U{202F}' || c == '\U{205F}' || c == '\U{3000}'
  }

  predicate IsBlank(s: string) {
    forall i :: 0 <= i < |s| ==> IsSpace(s[i])
  }

  /** The parts a completion names: none for a single PUT; otherwise as many as the content needs,
      numbered from one, each with a tag. */
  predicate PartsOk(parts: seq<Part>, u: Session) {
    if u.multipart then
      |parts| == PartCount(u.size) && forall i :: 0 <= i < |parts| ==> parts[i].number == i + 1 && !IsBlank(parts[i].tag)
    else parts == []
  }

  /** Why a completion that ends with an error does: what was wrong with the request or with the
      object then, or something failed. */
  predicate ErrorFits(s: Store, id: Id, parts: seq<Part>, r: Completed, broken: bool) {
    match r
    case Uri(_) => true
    case NotFound => id !in s.sessions
    case Unavailable => broken || (id in s.sessions && s.sessions[id].multipart && s.sessions[id].key !in s.objects)
    case Missing => id in s.sessions && !s.sessions[id].multipart && s.sessions[id].key !in s.objects
    case InvalidRequest =>
      && id in s.sessions
      && (PartsOk(parts, s.sessions[id]) ==> s.sessions[id].key in s.objects && |s.objects[s.sessions[id].key]| != s.sessions[id].size)
    case Mismatch =>
      && id in s.sessions && !s.sessions[id].multipart && s.sessions[id].key in s.objects
      && DigestOf(s.objects[s.sessions[id].key]) != s.sessions[id].digest
  }

  lemma OthersKeep(s: Store, step: Step, s': Store, id: Id)
    requires KeysUsed(s) && Next(s, step, s') && !Touches(step, id) && id in s.sessions
    ensures id in s'.sessions && s'.sessions[id] == s.sessions[id]
  {
    hide Next;
    Frame(s, step, s');
    hide ObjectFits, InsertOpen, KeyNext;
    if step.Create? { CreatesOther(s, step, s', id); }
  }

  lemma OthersKeepPut(s: Store, step: Step, s': Store, p: Id)
    requires Next(s, step, s') && !TouchesPut(step, p) && p in s.puts
    ensures p in s'.puts && s'.puts[p] == s.puts[p]
  {
    hide Next;
    Frame(s, step, s');
    if KeyStep(step) { hide RowNext; } else { hide KeyNext, ObjectFits, InsertOpen; }
  }

  /** Sessions keep what they were opened with, and a session that is gone does not come back. */
  predicate SameUploads(s: Store, s': Store) {
    forall id :: id in s.issued ==>
      && id in s'.issued
      && (id in s'.sessions ==> id in s.sessions && s'.sessions[id] == s.sessions[id].(work := s'.sessions[id].work))
  }

  lemma UploadStays(s: Store, step: Step, s': Store, id: Id)
    requires KeysUsed(s) && Next(s, step, s') && id in s.issued
    ensures id in s'.issued && (id in s'.sessions ==> id in s.sessions)
  {
    hide Next;
    Frame(s, step, s');
    hide RowNext;
  }

  lemma {:induction false} RunKeepsUploads(trace: seq<Store>, steps: seq<Step>, i: nat, j: nat)
    requires IsRun(trace, steps) && i <= j < |trace|
    ensures SameUploads(trace[i], trace[j])
  {
    hide Next, LegalWork, OneWinner, ContentOk;
    if i < j {
      RunKeepsUploads(trace, steps, i, j - 1);
      RunInv(trace, steps, j - 1);
      var s, s' := trace[j - 1], trace[j];
      forall id | id in s.issued
        ensures id in s'.issued
                && (id in s'.sessions ==> id in s.sessions && s'.sessions[id] == s.sessions[id].(work := s'.sessions[id].work))
      {
        UploadStays(s, steps[j - 1], s', id);
        if id in s'.sessions { SessionMoves(s, steps[j - 1], s', id); }
      }
    }
  }

  /** The digest has a row, and the row its object unless a removal of it was given up. */
  predicate Stored(s: Store, digest: Digest) {
    digest in s.blobs && (s.blobs[digest] in s.objects || s.blobs[digest] in s.removals)
  }

  lemma ExtendRun(trace: seq<Store>, steps: seq<Step>, step: Step, s': Store)
    requires IsRun(trace, steps) && Next(trace[|steps|], step, s')
    ensures IsRun(trace + [s'], steps + [step])
  {
    hide Next;
    var t, u := trace + [s'], steps + [step];
    forall i | 0 <= i < |u| ensures Next(t[i], u[i], t[i + 1]) {
      if i < |steps| { assert Next(trace[i], steps[i], trace[i + 1]); }
    }
  }

  class Service {
    var store: Store
    ghost var trace: seq<Store>
    ghost var steps: seq<Step>

    ghost predicate Valid()
      reads this
    {
      IsRun(trace, steps) && trace[|steps|] == store
    }

    /** The history only got longer. */
    twostate predicate Later()
      reads this
    {
      && Valid()
      && |old(steps)| <= |steps| && (forall i :: 0 <= i < |old(steps)| ==> steps[i] == old(steps)[i])
      && |old(trace)| <= |trace| && (forall i :: 0 <= i < |old(trace)| ==> trace[i] == old(trace)[i])
    }

    constructor ()
      ensures Valid() && store == EMPTY_STORE
    {
      store, trace, steps := EMPTY_STORE, [EMPTY_STORE], [];
    }

    method Take(step: Step, next: Store)
      requires Valid() && Next(store, step, next)
      modifies this
      ensures Later() && store == next && steps == old(steps) + [step]
    {
      hide Next;
      ExtendRun(trace, steps, step, next);
      store, trace, steps := next, trace + [next], steps + [step];
    }

    /** Every other request. A session whose row we have locked, and a put of ours, stay ours. */
    method Others(id: Id, p: Id)
      requires Valid()
      modifies this
      ensures Later()
      ensures id in old(store).sessions ==> id in store.sessions && store.sessions[id] == old(store).sessions[id]
      ensures p in old(store).puts ==> p in store.puts && store.puts[p] == old(store).puts[p]
      ensures old(store).blobs.Keys <= store.blobs.Keys
    {
      hide Next, IsRun;
      var rounds: nat := *;
      while rounds > 0
        invariant Later()
        invariant id in old(store).sessions ==> id in store.sessions && store.sessions[id] == old(store).sessions[id]
        invariant p in old(store).puts ==> p in store.puts && store.puts[p] == old(store).puts[p]
        invariant old(store).blobs.Keys <= store.blobs.Keys
      {
        var step: Step, next: Store := *, *;
        if Next(store, step, next) && !Touches(step, id) && !TouchesPut(step, p) {
          Used();
          if id in store.sessions { OthersKeep(store, step, next, id); }
          if p in store.puts { OthersKeepPut(store, step, next, p); }
          RowsStay(trace, steps, step, next);
          Take(step, next);
        }
        rounds := rounds - 1;
      }
    }

    /** Inserts the row of a stored object if the digest has none. */
    method FinishPut(ctx: Context, p: Id) returns (ok: bool)
      requires Valid() && p in store.puts
      modifies this, ctx`broken
      ensures Later()
      ensures ok ==> Stored(store, old(store).puts[p].digest) && old(store).puts[p].key !in store.duplicates
      ensures !ok ==> ctx.broken
    {
      hide Next, IsRun;
      var put := store.puts[p];
      Others(NIL, p);
      var breaks := ctx.MayBreak();
      if InsertOpen(store, put.digest) || breaks {
        ctx.Break();
        return false;
      }
      Take(PutInsert(p), PutDone(store, p)) by { PutInsertNext(store, p); }
      DropIfDuplicate(put.key);
      RowHasObject(put.digest);
      return true;
    }

    /** `Put`: when it succeeds the digest of the data has a row, and it fails only if something else
        does. Nothing is stored for a digest that has a row. */
    method PutData(ctx: Context, data: Bytes) returns (ok: bool)
      requires Valid()
      modifies this, ctx`broken
      ensures Later()
      ensures ok ==> Stored(store, DigestOf(data))
      ensures !ok ==> ctx.broken
      ensures DigestOf(data) in old(store).blobs ==> store == old(store)
    {
      hide Next, IsRun;
      var digest := DigestOf(data);
      var breaks := ctx.MayBreak();
      if breaks { return false; }
      if digest in store.blobs {
        RowHasObject(digest);
        return true;
      }
      var p: Id, key: Key := *, *;
      Others(NIL, p);
      breaks := ctx.MayBreak();
      if p in store.puts || key in store.used || breaks {
        ctx.Break();
        return false;
      }
      Take(PutObject(p, key, data), store.(puts := store.puts[p := Put(digest, key)], objects := store.objects[key := data],
                                           used := store.used + {key})) by { PutObjectNext(store, p, key, data); }
      ok := FinishPut(ctx, p);
    }

    /** An object that lost to another one is removed, at the latest by a removal given up. */
    method DropIfDuplicate(key: Key)
      requires Valid()
      modifies this
      ensures Later() && old(store).blobs == store.blobs && old(store).sessions == store.sessions && key !in store.duplicates
      ensures key in old(store).duplicates ==> |steps| == |old(steps)| + 1 && Drops(steps, |old(steps)|, key)
    {
      hide Next, IsRun;
      if key !in store.duplicates { return; }
      var removed: bool := *;
      DropNext(store, key);
      if removed {
        Take(DropDuplicate(key), store.(objects := store.objects - {key}, duplicates := store.duplicates - {key}));
      } else {
        Take(DuplicateForgotten(key), store.(duplicates := store.duplicates - {key}, removals := store.removals + {key}));
      }
    }

    lemma RowHasObject(digest: Digest)
      requires Valid() && digest in store.blobs
      ensures Stored(store, digest)
    {
      hide Next, KeysOk, OneWinner, SessionOk, PutOk;
      RunInv(trace, steps, |steps|);
    }

    lemma Used()
      requires Valid()
      ensures KeysUsed(store)
    {
      hide Next, ContentOk, OneWinner;
      RunInv(trace, steps, |steps|);
    }

    /** Gives the row lock back and changes nothing. */
    method Cancel(id: Id)
      requires Valid() && id in store.sessions
      modifies this
      ensures Later() && id in store.sessions && store == SetWork(old(store), id, Idle)
    {
      Take(Rollback(id), SetWork(store, id, Idle)) by { LockNext(store, id, Rollback(id), Idle); }
    }

    /** Completing the multipart upload in the object store, which may work whatever it answers. */
    method CompleteParts(id: Id)
      requires Valid() && At(store, id, Work.Completing)
      modifies this
      ensures Later() && At(store, id, Work.Completing) && store.sessions == old(store).sessions
    {
      hide Next, IsRun;
      var u := store.sessions[id];
      var content: Bytes, completes: bool := *, *;
      if completes && u.key in store.multiparts && u.key !in store.objects {
        Take(Materialize(u.key, content), store.(objects := store.objects[u.key := content], multiparts := store.multiparts - {u.key}))
          by { MaterializeNext(store, u.key, content); }
      }
    }

    /** The check of the part list. */
    method CheckParts(u: Session, parts: seq<Part>) returns (valid: bool)
      ensures valid <==> PartsOk(parts, u)
    {
      if !u.multipart { return |parts| == 0; }
      if |parts| != PartCount(u.size) { return false; }
      for i := 0 to |parts|
        invariant forall k :: 0 <= k < i ==> parts[k].number == k + 1 && !IsBlank(parts[k].tag)
      {
        if parts[i].number != i + 1 || IsBlank(parts[i].tag) { return false; }
      }
      return true;
    }

    /** The checks of the request and of the object, under the row lock. */
    method CheckUpload(ctx: Context, id: Id, parts: seq<Part>) returns (error: Option<Completed>)
      requires Valid() && At(store, id, Work.Completing)
      modifies this, ctx`broken
      ensures Later()
      ensures error.None? ==> store.sessions == old(store).sessions[id := old(store).sessions[id].(work := Verified)]
      ensures error.None? ==> PartsOk(parts, store.sessions[id])
      ensures error.None? ==>
                var u := store.sessions[id];
                u.key in store.objects && |store.objects[u.key]| == u.size && (u.multipart || DigestOf(store.objects[u.key]) == u.digest)
      ensures error.Some? ==> !error.value.Uri? && !error.value.NotFound? && ErrorFits(store, id, parts, error.value, ctx.broken)
      ensures error.Some? ==> store.sessions == old(store).sessions[id := old(store).sessions[id].(work := Idle)]
    {
      hide Next, IsRun;
      var u := store.sessions[id];
      var valid := CheckParts(u, parts);
      if valid && u.multipart { CompleteParts(id); }
      var breaks := ctx.MayBreak();
      error := CheckObject(u, valid, breaks);
      if error.Some? { Cancel(id); }
      else { Take(Verify(id), SetWork(store, id, Verified)) by { LockNext(store, id, Verify(id), Verified); } }
    }

    /** The check of the object; `breaks` says that it could not be asked for. */
    method CheckObject(u: Session, valid: bool, breaks: bool) returns (error: Option<Completed>)
      ensures valid && !breaks && ObjectFits(store, u) <==> error.None?
      ensures error == Some(InvalidRequest) ==> !valid || (u.key in store.objects && |store.objects[u.key]| != u.size)
      ensures error == Some(Unavailable) ==> breaks || (u.multipart && u.key !in store.objects)
      ensures error == Some(Missing) ==> !u.multipart && u.key !in store.objects
      ensures error == Some(Mismatch) ==> !u.multipart && u.key in store.objects && DigestOf(store.objects[u.key]) != u.digest
      ensures error != Some(NotFound) && (error.Some? ==> !error.value.Uri?)
    {
      if !valid { return Some(InvalidRequest); }
      if breaks { return Some(Unavailable); }
      if u.key !in store.objects { return Some(if u.multipart then Unavailable else Missing); }
      if |store.objects[u.key]| != u.size { return Some(InvalidRequest); }
      if !u.multipart && DigestOf(store.objects[u.key]) != u.digest { return Some(Mismatch); }
      return None;
    }

    /** Inserts the row if the digest has none, ends the session and drops a duplicate object. */
    method FinishUpload(ctx: Context, id: Id) returns (r: Completed)
      requires Valid() && At(store, id, Verified)
      modifies this, ctx`broken
      ensures Later()
      ensures if r.Uri? then r.digest == old(store).sessions[id].digest else r.Unavailable? && ctx.broken
      ensures r.Uri? ==> id !in store.sessions && r.digest in store.blobs && old(store).sessions[id].key !in store.duplicates
      ensures r.Uri? ==>
                var key := old(store).sessions[id].key;
                store.blobs[r.digest] == key || exists i :: |old(steps)| <= i < |steps| && Drops(steps, i, key)
    {
      hide Next, IsRun, InsertOpen;
      var u := store.sessions[id];
      r := Unavailable;
      if InsertOpen(store, u.digest) {
        ctx.Break();
        Cancel(id);
        return;
      }
      var won := u.digest !in store.blobs;
      Take(InsertRow(id), SetWork(store, id, Inserted(won))) by { LockNext(store, id, InsertRow(id), Inserted(won)); }
      Others(id, NIL);
      var breaks := ctx.MayBreak();
      if breaks {
        Cancel(id);
        return;
      }
      Take(CommitComplete(id), Committed(store, id)) by { CommitNext(store, id); }
      breaks := ctx.MayBreak();
      if breaks { return; }
      ghost var i := |steps|;
      DropIfDuplicate(u.key);
      assert won || Drops(steps, i, u.key);
      return Uri(u.digest);
    }

    twostate lemma UploadsKept()
      requires old(Valid()) && Later()
      ensures SameUploads(old(store), store)
    {
      hide Next;
      RunKeepsUploads(trace, steps, |old(steps)|, |steps|);
    }

    /** The row lock of a session that is there; others go on while it is waited for. */
    method LockUpload(ctx: Context, id: Id, work: Work) returns (error: Option<Completed>)
      requires Valid() && (work == Work.Completing || work == Work.Aborting)
      modifies this, ctx`broken
      ensures Later() && SameUploads(old(store), store)
      ensures error.None? ==> At(store, id, work)
      ensures error.Some? ==> (error.value == Unavailable && ctx.broken) || (error.value == NotFound && id !in store.sessions)
      ensures id in old(store).issued && id !in old(store).sessions ==> error.Some?
      ensures At(old(store), id, Idle) ==> error != Some(NotFound)
      ensures old(ctx.broken) ==> ctx.broken
    {
      hide Next, IsRun;
      var breaks := ctx.MayBreak();
      if id in store.sessions && store.sessions[id].work != Idle { Others(NIL, NIL); }
      error := None;
      if breaks { error := Some(Unavailable); }
      else if id !in store.sessions { error := Some(NotFound); }
      else if store.sessions[id].work != Idle {
        ctx.Break();
        error := Some(Unavailable);
      } else {
        var step := if work == Work.Completing then LockComplete(id) else LockAbort(id);
        Take(step, SetWork(store, id, work)) by { LockNext(store, id, step, work); }
      }
      UploadsKept();
    }

    /** The rest of a completion, under the row lock. */
    method CompleteLocked(ctx: Context, id: Id, parts: seq<Part>) returns (r: Completed)
      requires Valid() && At(store, id, Work.Completing)
      modifies this, ctx`broken
      ensures Later() && !r.NotFound?
      ensures r.Uri? ==>
                && id !in store.sessions && Stored(store, r.digest)
                && r.digest == old(store).sessions[id].digest && PartsOk(parts, old(store).sessions[id])
                && old(store).sessions[id].key !in store.duplicates
                && (store.blobs[r.digest] == old(store).sessions[id].key
                    || exists i :: |old(steps)| <= i < |steps| && Drops(steps, i, old(store).sessions[id].key))
      ensures ErrorFits(store, id, parts, r, ctx.broken)
      ensures !r.Uri? && !r.Unavailable? && id in store.sessions ==> store.sessions[id].work == Idle
    {
      hide Next, IsRun, ErrorFits, PartsOk, ObjectFits, Drops;
      ghost var u := store.sessions[id];
      Others(id, NIL);
      var error := CheckUpload(ctx, id, parts);
      if error.Some? { return error.value; }
      SamePartsOk(parts, u, store.sessions[id]);
      Others(id, NIL);
      r := FinishUpload(ctx, id);
      BrokenFits(store, id, parts, r, ctx.broken);
      if r.Uri? { RowHasObject(r.digest); }
    }

    /** `CompleteUpload`: on success the session is gone and the digest it was opened with has a
        row, this upload's or an earlier one's, whose object has dropped a duplicate. It fails only
        for a session that is gone, a part list or an object that is not what the session was opened
        for, or because something else failed. */
    method CompleteUpload(ctx: Context, id: Id, parts: seq<Part>) returns (r: Completed)
      requires Valid()
      modifies this, ctx`broken
      ensures Later()
      ensures r.Uri? ==> id !in store.sessions && Stored(store, r.digest)
      ensures r.Uri? && id in old(store).issued ==>
                && id in old(store).sessions && r.digest == old(store).sessions[id].digest
                && PartsOk(parts, old(store).sessions[id]) && old(store).sessions[id].key !in store.duplicates
                && (store.blobs[r.digest] == old(store).sessions[id].key
                    || exists i :: |old(steps)| <= i < |steps| && Drops(steps, i, old(store).sessions[id].key))
      ensures ErrorFits(store, id, parts, r, ctx.broken)
      ensures At(old(store), id, Idle) ==> !r.NotFound?
      ensures !r.Uri? && !r.Unavailable? && id in store.sessions ==> store.sessions[id].work == Idle
    {
      hide Next, IsRun, ErrorFits, PartsOk, Stored, Drops;
      var error := LockUpload(ctx, id, Work.Completing);
      if error.Some? {
        assert ErrorFits(store, id, parts, error.value, ctx.broken) by { NotLockedFits(store, id, parts, error.value, ctx.broken); }
        return error.value;
      }
      if id in old(store).issued { SamePartsOk(parts, old(store).sessions[id], store.sessions[id]); }
      r := CompleteLocked(ctx, id, parts);
    }

    /** Removes the staged object, or gives the removal up without an answer; that the multipart
        upload cannot be aborted is ignored. */
    method RemoveObject(ctx: Context, id: Id) returns (removed: bool)
      requires Valid() && At(store, id, Work.Aborting)
      modifies this, ctx`broken
      ensures Later() && At(store, id, Work.Aborting)
      ensures removed ==> |steps| == |old(steps)| + 1 && Removes(steps, |old(steps)|, id)
      ensures !removed || old(ctx.broken) ==> ctx.broken
    {
      hide Next, IsRun;
      var aborted: bool := *;
      var breaks := ctx.MayBreak();
      removed := !breaks;
      AbortNext(store, id, aborted);
      if removed {
        Take(RemoveStaged(id, aborted), WithoutStaged(store, store.sessions[id].key, true, aborted));
      } else {
        Take(RemovalLost(id, aborted), WithoutStaged(store, store.sessions[id].key, false, aborted));
      }
    }

    /** Ends a session whose object is removed. */
    method RemoveSession(ctx: Context, id: Id) returns (ok: bool)
      requires Valid() && At(store, id, Work.Aborting)
      modifies this, ctx`broken
      ensures Later()
      ensures ok ==> id !in store.sessions
      ensures !ok || old(ctx.broken) ==> ctx.broken
    {
      hide Next, IsRun;
      Others(id, NIL);
      var breaks := ctx.MayBreak();
      if breaks {
        Cancel(id);
        return false;
      }
      Take(CommitAbort(id), store.(sessions := store.sessions - {id})) by { AbortNext(store, id, false); }
      return true;
    }

    /** `abortSession`: a session that is gone is no error; otherwise its object goes before its
        row does. */
    method AbortSession(ctx: Context, id: Id) returns (ok: bool)
      requires Valid()
      modifies this, ctx`broken
      ensures Later()
      ensures ok ==> id !in store.sessions
      ensures ok && At(old(store), id, Idle) ==> exists i :: |old(steps)| <= i < |steps| && Removes(steps, i, id)
      ensures !ok || old(ctx.broken) ==> ctx.broken
    {
      hide Next, IsRun, SameUploads;
      var error := LockUpload(ctx, id, Work.Aborting);
      if error.Some? { return error.value == NotFound; }
      Others(id, NIL);
      ghost var i := |steps|;
      var removed := RemoveObject(ctx, id);
      if !removed {
        Cancel(id);
        return false;
      }
      ok := RemoveSession(ctx, id);
      assert Removes(steps, i, id);
    }

    /** `CleanupExpiredUploads` over the sessions listed as expired; a session that cannot be
        aborted is left for the next sweep. */
    method CleanupExpiredUploads(ctx: Context, expired: seq<Id>)
      requires Valid()
      modifies this, ctx`broken
      ensures Later()
      ensures ctx.broken || forall i :: 0 <= i < |expired| && expired[i] in old(store).issued ==> expired[i] !in store.sessions
    {
      hide Next, IsRun;
      UploadsKept();
      for i := 0 to |expired|
        invariant Later() && SameUploads(old(store), store)
        invariant ctx.broken || forall k :: 0 <= k < i && expired[k] in old(store).issued ==> expired[k] !in store.sessions
      {
        label Before:
        var ok := AbortSession(ctx, expired[i]);
        UploadsKept@Before();
      }
    }
  }

  /** Step `i` removes a duplicate object, or gives its removal up. */
  predicate Drops(steps: seq<Step>, i: nat, key: Key) {
    i < |steps| && (steps[i] == DropDuplicate(key) || steps[i] == DuplicateForgotten(key))
  }

  /** Step `i` removes the staged object of the session. */
  predicate Removes(steps: seq<Step>, i: nat, id: Id) {
    i < |steps| && steps[i].RemoveStaged? && steps[i].id == id
  }

  lemma NotLockedFits(s: Store, id: Id, parts: seq<Part>, r: Completed, broken: bool)
    requires (r == Unavailable && broken) || (r == NotFound && id !in s.sessions)
    ensures ErrorFits(s, id, parts, r, broken)
  {
  }

  lemma BrokenFits(s: Store, id: Id, parts: seq<Part>, r: Completed, broken: bool)
    requires r.Uri? || (r == Unavailable && broken)
    ensures ErrorFits(s, id, parts, r, broken)
  {
  }

  lemma SamePartsOk(parts: seq<Part>, u: Session, v: Session)
    requires v == u.(work := v.work)
    ensures PartsOk(parts, u) <==> PartsOk(parts, v)
  {
  }

  lemma RowsStay(trace: seq<Store>, steps: seq<Step>, step: Step, s': Store)
    requires IsRun(trace, steps) && Next(trace[|steps|], step, s')
    ensures trace[|steps|].blobs.Keys <= s'.blobs.Keys
  {
    hide Next, Inv;
    RunInv(trace, steps, |steps|);
    forall d | d in trace[|steps|].blobs ensures d in s'.blobs {
      BlobKept(trace[|steps|], step, s', d);
    }
  }

  lemma CommitNext(s: Store, id: Id)
    requires id in s.sessions && s.sessions[id].work.Inserted?
    ensures Next(s, CommitComplete(id), Committed(s, id))
    ensures id !in Committed(s, id).sessions
    ensures s.blobs.Keys <= Committed(s, id).blobs.Keys
    ensures if s.sessions[id].work.won then s.sessions[id].digest in Committed(s, id).blobs && Committed(s, id).blobs[s.sessions[id].digest] == s.sessions[id].key
            else s.sessions[id].key in Committed(s, id).duplicates
  {
  }

  lemma PutObjectNext(s: Store, p: Id, key: Key, data: Bytes)
    requires p !in s.puts && key !in s.used
    ensures Next(s, PutObject(p, key, data),
                 s.(puts := s.puts[p := Put(DigestOf(data), key)], objects := s.objects[key := data], used := s.used + {key}))
  {
  }

  lemma PutInsertNext(s: Store, p: Id)
    requires p in s.puts && !InsertOpen(s, s.puts[p].digest)
    ensures Next(s, PutInsert(p), PutDone(s, p)) && s.puts[p].digest in PutDone(s, p).blobs
  {
  }

  lemma DropNext(s: Store, key: Key)
    requires key in s.duplicates
    ensures Next(s, DropDuplicate(key), s.(objects := s.objects - {key}, duplicates := s.duplicates - {key}))
    ensures Next(s, DuplicateForgotten(key), s.(duplicates := s.duplicates - {key}, removals := s.removals + {key}))
  {
  }

  lemma LockNext(s: Store, id: Id, step: Step, work: Work)
    requires id in s.sessions
    requires match step
             case Rollback(x) => x == id && work == Idle
             case LockComplete(x) => x == id && s.sessions[id].work == Idle && work == Work.Completing
             case LockAbort(x) => x == id && s.sessions[id].work == Idle && work == Work.Aborting
             case Verify(x) => x == id && s.sessions[id].work == Work.Completing && ObjectFits(s, s.sessions[id]) && work == Verified
             case InsertRow(x) =>
               x == id && s.sessions[id].work == Verified && !InsertOpen(s, s.sessions[id].digest)
               && work == Inserted(s.sessions[id].digest !in s.blobs)
             case _ => false
    ensures Next(s, step, SetWork(s, id, work))
  {
    hide ObjectFits, InsertOpen;
  }

  lemma MaterializeNext(s: Store, key: Key, content: Bytes)
    requires key in s.multiparts && key !in s.objects
    ensures Next(s, Materialize(key, content), s.(objects := s.objects[key := content], multiparts := s.multiparts - {key}))
  {
  }

  lemma AbortNext(s: Store, id: Id, aborted: bool)
    requires At(s, id, Work.Aborting)
    ensures Next(s, RemoveStaged(id, aborted), WithoutStaged(s, s.sessions[id].key, true, aborted))
    ensures Next(s, RemovalLost(id, aborted), WithoutStaged(s, s.sessions[id].key, false, aborted))
    ensures Next(s, CommitAbort(id), s.(sessions := s.sessions - {id}))
  {
  }
}
