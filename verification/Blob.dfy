/** Content-addressed blobs: upload sessions, blob rows and the objects behind them, with the
    database and the object store changing independently of each other. */
module Blob {
  import opened Base

  type Key = nat

  const PART_SIZE: nat := 8388608
  const MAX_UPLOAD: nat := 83886080000

  /** What a request is doing with a session whose row it has locked. */
  datatype Work = Idle | Completing | Verified | Inserted(won: bool) | Aborting {
    /** The object has passed its checks. */
    predicate Checked() {
      Verified? || Inserted?
    }
  }

  datatype Session = Session(digest: Digest, key: Key, size: nat, multipart: bool, work: Work)

  datatype Put = Put(digest: Digest, key: Key)

  /** Committed sessions and blob rows; the objects; open multipart uploads; keys a client has
      a signed single PUT for, with the digest the signature fixes; direct puts whose object is
      stored; keys whose duplicate object is about to be dropped; keys with a removal that was
      given up without an answer and may still take effect; session identifiers and keys given
      out so far. */
  datatype Store = Store(
    sessions: map<Id, Session>,
    blobs: map<Digest, Key>,
    objects: map<Key, Bytes>,
    multiparts: set<Key>,
    signed: map<Key, Digest>,
    puts: map<Id, Put>,
    duplicates: set<Key>,
    removals: set<Key>,
    issued: set<Id>,
    used: set<Key>)

  const EMPTY_STORE: Store := Store(map[], map[], map[], {}, map[], map[], {}, {}, {}, {})

  datatype Step =
    | Create(id: Id, digest: Digest, key: Key, size: nat)
    | Sign(id: Id)
    | ClientPut(key: Key, content: Bytes)
    | Materialize(key: Key, content: Bytes)
    | LockComplete(id: Id)
    | Verify(id: Id)
    | InsertRow(id: Id)
    | CommitComplete(id: Id)
    | LockAbort(id: Id)
    | RemoveStaged(id: Id, aborted: bool)
    | RemovalLost(id: Id, aborted: bool)
    | CommitAbort(id: Id)
    | Rollback(id: Id)
    | LateRemoval(key: Key)
    | PutObject(p: Id, key: Key, content: Bytes)
    | PutInsert(p: Id)
    | PutForgotten(p: Id)
    | DropDuplicate(key: Key)
    | DuplicateForgotten(key: Key)

  function SetWork(s: Store, id: Id, work: Work): Store
    requires id in s.sessions
  {
    s.(sessions := s.sessions[id := s.sessions[id].(work := work)])
  }

  /** An upload above the part size is a multipart upload, any other one signed PUT. */
  function Created(s: Store, id: Id, digest: Digest, key: Key, size: nat): Store {
    s.(sessions := s.sessions[id := Session(digest, key, size, size > PART_SIZE, Idle)], issued := s.issued + {id}, used := s.used + {key},
       multiparts := if size > PART_SIZE then s.multiparts + {key} else s.multiparts)
  }

  /** Some open transaction has inserted a row for the digest; another insert waits for it. */
  predicate InsertOpen(s: Store, digest: Digest) {
    exists id :: id in s.sessions && s.sessions[id].digest == digest && s.sessions[id].work == Inserted(true)
  }

  /** What the completion of an upload checks of its object. */
  predicate ObjectFits(s: Store, u: Session) {
    && u.key in s.objects && |s.objects[u.key]| == u.size
    && (!u.multipart ==> DigestOf(s.objects[u.key]) == u.digest)
  }

  function Committed(s: Store, id: Id): Store
    requires id in s.sessions && s.sessions[id].work.Inserted?
  {
    var u := s.sessions[id];
    var rest := s.(sessions := s.sessions - {id});
    if u.work.won then rest.(blobs := s.blobs[u.digest := u.key])
    else rest.(duplicates := s.duplicates + {u.key})
  }

  function PutDone(s: Store, p: Id): Store
    requires p in s.puts
  {
    var rest := s.(puts := s.puts - {p});
    if s.puts[p].digest in s.blobs then rest.(duplicates := s.duplicates + {s.puts[p].key})
    else rest.(blobs := s.blobs[s.puts[p].digest := s.puts[p].key])
  }

  predicate At(s: Store, id: Id, work: Work) {
    id in s.sessions && s.sessions[id].work == work
  }

  /** Removing a staged object, after an attempt to abort its multipart upload whose failure
      is ignored. */
  function WithoutStaged(s: Store, key: Key, removed: bool, aborted: bool): Store {
    s.(objects := if removed then s.objects - {key} else s.objects,
       removals := if removed then s.removals else s.removals + {key},
       multiparts := if aborted then s.multiparts - {key} else s.multiparts)
  }

  /** The step concerns the object, the upload or the signature of a key. */
  predicate KeyStep(step: Step) {
    step.Create? || step.Sign? || step.ClientPut? || step.Materialize? || step.RemoveStaged? || step.RemovalLost?
    || step.LateRemoval? || step.PutObject? || step.DropDuplicate? || step.DuplicateForgotten?
  }

  predicate KeyNext(s: Store, step: Step, s': Store)
    requires KeyStep(step)
  {
    match step
    case Create(id, digest, key, size) =>
      id !in s.issued && key !in s.used && size <= MAX_UPLOAD && s' == Created(s, id, digest, key, size)
    case Sign(id) =>
      && id in s.sessions && !s.sessions[id].multipart
      && s' == s.(signed := s.signed[s.sessions[id].key := s.sessions[id].digest])
    // The signature fixes the checksum, and forbids overwriting.
    case ClientPut(key, content) =>
      && key in s.signed && key !in s.objects && DigestOf(content) == s.signed[key]
      && s' == s.(objects := s.objects[key := content])
    // Completing a multipart upload, possibly later than its request was answered.
    case Materialize(key, content) =>
      && key in s.multiparts && key !in s.objects
      && s' == s.(objects := s.objects[key := content], multiparts := s.multiparts - {key})
    case RemoveStaged(id, aborted) => At(s, id, Aborting) && s' == WithoutStaged(s, s.sessions[id].key, true, aborted)
    case RemovalLost(id, aborted) => At(s, id, Aborting) && s' == WithoutStaged(s, s.sessions[id].key, false, aborted)
    // A removal that was given up takes effect after all.
    case LateRemoval(key) => key in s.removals && s' == s.(objects := s.objects - {key})
    case PutObject(p, key, content) =>
      && p !in s.puts && key !in s.used
      && s' == s.(puts := s.puts[p := Put(DigestOf(content), key)], objects := s.objects[key := content], used := s.used + {key})
    case DropDuplicate(key) =>
      key in s.duplicates && s' == s.(objects := s.objects - {key}, duplicates := s.duplicates - {key})
    case DuplicateForgotten(key) =>
      key in s.duplicates && s' == s.(duplicates := s.duplicates - {key}, removals := s.removals + {key})
  }

  /** What a request does with its session, with rows and with direct puts. */
  predicate RowNext(s: Store, step: Step, s': Store)
    requires !KeyStep(step)
  {
    match step
    case LockComplete(id) => At(s, id, Idle) && s' == SetWork(s, id, Completing)
    case Verify(id) => At(s, id, Completing) && ObjectFits(s, s.sessions[id]) && s' == SetWork(s, id, Verified)
    case InsertRow(id) =>
      && At(s, id, Verified) && !InsertOpen(s, s.sessions[id].digest)
      && s' == SetWork(s, id, Inserted(s.sessions[id].digest !in s.blobs))
    case CommitComplete(id) => id in s.sessions && s.sessions[id].work.Inserted? && s' == Committed(s, id)
    case LockAbort(id) => At(s, id, Idle) && s' == SetWork(s, id, Aborting)
    case CommitAbort(id) => At(s, id, Aborting) && s' == s.(sessions := s.sessions - {id})
    case Rollback(id) => id in s.sessions && s' == SetWork(s, id, Idle)
    case PutInsert(p) => p in s.puts && !InsertOpen(s, s.puts[p].digest) && s' == PutDone(s, p)
    case PutForgotten(p) => s' == s.(puts := s.puts - {p})
  }

  predicate Next(s: Store, step: Step, s': Store) {
    if KeyStep(step) then KeyNext(s, step, s') else RowNext(s, step, s')
  }

  lemma KeyIs(s: Store, step: Step, s': Store)
    requires KeyStep(step)
    ensures Next(s, step, s') <==> KeyNext(s, step, s')
  {
    hide KeyNext, RowNext;
  }

  lemma RowIs(s: Store, step: Step, s': Store)
    requires !KeyStep(step)
    ensures Next(s, step, s') <==> RowNext(s, step, s')
  {
    hide KeyNext, RowNext;
  }

  lemma KeyFrame(s: Store, step: Step, s': Store)
    requires KeyStep(step) && KeyNext(s, step, s')
    ensures s'.blobs == s.blobs && (!step.Create? ==> s'.sessions == s.sessions) && (!step.PutObject? ==> s'.puts == s.puts)
  {
  }

  lemma RowKeepsObjects(s: Store, step: Step, s': Store)
    requires !KeyStep(step) && RowNext(s, step, s')
    ensures s'.objects == s.objects && s'.multiparts == s.multiparts && s'.signed == s.signed && s'.removals == s.removals
    ensures s'.used == s.used && s'.issued == s.issued
  {
    hide ObjectFits, InsertOpen;
  }

  lemma RowKeepsSessions(s: Store, step: Step, s': Store)
    requires !KeyStep(step) && RowNext(s, step, s')
    ensures s'.sessions.Keys <= s.sessions.Keys
  {
    hide ObjectFits, InsertOpen;
  }

  lemma RowKeepsPuts(s: Store, step: Step, s': Store)
    requires !KeyStep(step) && RowNext(s, step, s')
    ensures s'.puts.Keys <= s.puts.Keys && forall p :: p in s'.puts ==> s'.puts[p] == s.puts[p]
  {
    hide ObjectFits, InsertOpen;
  }

  lemma RowFrame(s: Store, step: Step, s': Store)
    requires !KeyStep(step) && RowNext(s, step, s')
    ensures s'.objects == s.objects && s'.multiparts == s.multiparts && s'.signed == s.signed && s'.removals == s.removals
    ensures s'.used == s.used && s'.issued == s.issued && s'.sessions.Keys <= s.sessions.Keys
    ensures s'.puts.Keys <= s.puts.Keys && forall p :: p in s'.puts ==> s'.puts[p] == s.puts[p]
  {
    hide ObjectFits, InsertOpen;
    RowKeepsObjects(s, step, s');
    RowKeepsSessions(s, step, s');
    RowKeepsPuts(s, step, s');
    hide RowNext;
  }

  /** What any step leaves alone. */
  lemma Frame(s: Store, step: Step, s': Store)
    requires Next(s, step, s')
    ensures KeyStep(step) ==> KeyNext(s, step, s') && s'.blobs == s.blobs
    ensures KeyStep(step) && !step.Create? ==> s'.sessions == s.sessions
    ensures KeyStep(step) && !step.PutObject? ==> s'.puts == s.puts
    ensures !KeyStep(step) ==>
              && RowNext(s, step, s')
              && s'.objects == s.objects && s'.multiparts == s.multiparts && s'.signed == s.signed && s'.removals == s.removals
              && s'.used == s.used && s'.issued == s.issued && s'.sessions.Keys <= s.sessions.Keys
              && s'.puts.Keys <= s.puts.Keys && forall p :: p in s'.puts ==> s'.puts[p] == s.puts[p]
  {
    hide Next, KeyNext, RowNext;
    if KeyStep(step) {
      KeyIs(s, step, s');
      KeyFrame(s, step, s');
    } else {
      RowIs(s, step, s');
      RowFrame(s, step, s');
    }
  }

  ghost predicate IsRun(trace: seq<Store>, steps: seq<Step>) {
    && |trace| == |steps| + 1 && trace[0] == EMPTY_STORE
    && forall i :: 0 <= i < |steps| ==> Next(trace[i], steps[i], trace[i + 1])
  }

  // ---- Who owns a key -------------------------------------------------------

  datatype Owner = OfSession(id: Id) | OfBlob(digest: Digest) | OfPut(p: Id) | OfDuplicate

  predicate Owns(s: Store, o: Owner, key: Key) {
    match o
    case OfSession(id) => id in s.sessions && s.sessions[id].key == key
    case OfBlob(digest) => digest in s.blobs && s.blobs[digest] == key
    case OfPut(p) => p in s.puts && s.puts[p].key == key
    case OfDuplicate => key in s.duplicates
  }

  /** A key has one owner, and was given out. */
  ghost predicate KeysOk(s: Store) {
    && (forall o, o', key :: Owns(s, o, key) && Owns(s, o', key) ==> o == o')
    && (forall o, key :: Owns(s, o, key) ==> key in s.used)
    && KeysUsed(s)
  }

  predicate KeysUsed(s: Store) {
    s.objects.Keys + s.multiparts + s.signed.Keys + s.removals <= s.used && s.sessions.Keys <= s.issued
  }

  /** No key gets a new owner. */
  lemma FewerOwners(s: Store, s': Store)
    requires KeysOk(s) && (forall o, key :: Owns(s', o, key) ==> Owns(s, o, key)) && s'.used == s.used && KeysUsed(s')
    ensures KeysOk(s')
  {
    hide Owns, KeysUsed;
  }

  /** One key passes from one owner to another. */
  lemma OwnerChanges(s: Store, s': Store, giver: Owner, taker: Owner, k: Key)
    requires KeysOk(s) && Owns(s, giver, k) && !Owns(s', giver, k)
    requires forall o, key :: Owns(s', o, key) ==> Owns(s, o, key) || (o == taker && key == k)
    requires s'.used == s.used && KeysUsed(s')
    ensures KeysOk(s')
  {
    hide Owns, KeysUsed;
  }

  /** A fresh key gets its first owner. */
  lemma OwnerComes(s: Store, s': Store, taker: Owner, k: Key)
    requires KeysOk(s) && k !in s.used && s'.used == s.used + {k}
    requires forall o, key :: Owns(s', o, key) ==> Owns(s, o, key) || (o == taker && key == k)
    requires KeysUsed(s')
    ensures KeysOk(s')
  {
    hide Owns, KeysUsed;
  }

  lemma CommitKeys(s: Store, id: Id)
    requires KeysOk(s) && id in s.sessions && s.sessions[id].work.Inserted?
    ensures KeysOk(Committed(s, id))
  {
    var u := s.sessions[id];
    OwnerChanges(s, Committed(s, id), OfSession(id), if u.work.won then OfBlob(u.digest) else OfDuplicate, u.key);
  }

  lemma PutKeys(s: Store, p: Id)
    requires KeysOk(s) && p in s.puts
    ensures KeysOk(PutDone(s, p))
  {
    var u := s.puts[p];
    OwnerChanges(s, PutDone(s, p), OfPut(p), if u.digest in s.blobs then OfDuplicate else OfBlob(u.digest), u.key);
  }

  lemma FreshKeys(s: Store, step: Step, s': Store)
    requires KeysOk(s) && Next(s, step, s') && (step.Create? || step.PutObject?)
    ensures KeysOk(s')
  {
    OwnerComes(s, s', if step.Create? then OfSession(step.id) else OfPut(step.p), step.key);
  }

  /** The step passes a key on or gives one out. */
  predicate MovesKeys(step: Step) {
    step.CommitComplete? || step.PutInsert? || step.Create? || step.PutObject?
  }

  lemma KeysAreUsed(s: Store, step: Step, s': Store)
    requires KeysOk(s) && KeyStep(step) && KeyNext(s, step, s') && !MovesKeys(step)
    ensures KeysUsed(s') && s'.used == s.used
  {
    if step.Sign? || step.RemoveStaged? || step.RemovalLost? { assert Owns(s, OfSession(step.id), s.sessions[step.id].key); }
    if step.DuplicateForgotten? { assert Owns(s, OfDuplicate, step.key); }
  }

  lemma UsedKeys(s: Store, step: Step, s': Store)
    requires KeysOk(s) && Next(s, step, s') && !MovesKeys(step)
    ensures KeysUsed(s') && s'.used == s.used
  {
    hide Next;
    Frame(s, step, s');
    if KeyStep(step) {
      hide RowNext;
      KeysAreUsed(s, step, s');
    } else {
      hide KeyNext, RowNext;
    }
  }

  lemma CreatedKey(s: Store, step: Step, s': Store, id: Id)
    requires step.Create? && KeyNext(s, step, s') && id in s'.sessions
    ensures (id in s.sessions && s.sessions[id].key == s'.sessions[id].key) || s'.sessions[id].key !in s.used
  {
  }

  lemma KeyOfSession(s: Store, step: Step, s': Store, id: Id)
    requires Next(s, step, s') && id in s'.sessions
    ensures (id in s.sessions && s.sessions[id].key == s'.sessions[id].key) || (step.Create? && s'.sessions[id].key !in s.used)
  {
    hide Next, ObjectFits, InsertOpen;
    Frame(s, step, s');
    if KeyStep(step) {
      hide RowNext;
      if step.Create? { CreatedKey(s, step, s', id); }
    } else {
      hide KeyNext;
    }
  }

  lemma KeyOfPut(s: Store, step: Step, s': Store, p: Id)
    requires Next(s, step, s') && p in s'.puts
    ensures (p in s.puts && s.puts[p] == s'.puts[p]) || (step.PutObject? && s'.puts[p].key !in s.used)
  {
    hide Next, ObjectFits, InsertOpen;
    Frame(s, step, s');
    hide RowNext;
  }

  lemma KeyOfBlob(s: Store, step: Step, s': Store, d: Digest)
    requires Next(s, step, s') && d in s'.blobs
    ensures || (d in s.blobs && s.blobs[d] == s'.blobs[d])
            || (step.CommitComplete? && step.id in s.sessions && s.sessions[step.id].key == s'.blobs[d])
            || (step.PutInsert? && step.p in s.puts && s.puts[step.p] == Put(d, s'.blobs[d]))
  {
    hide Next, ObjectFits, InsertOpen;
    Frame(s, step, s');
    hide KeyNext;
  }

  lemma KeyOfDuplicate(s: Store, step: Step, s': Store, key: Key)
    requires Next(s, step, s') && key in s'.duplicates
    ensures || key in s.duplicates
            || (step.CommitComplete? && Owns(s, OfSession(step.id), key))
            || (step.PutInsert? && Owns(s, OfPut(step.p), key))
  {
    hide Next, ObjectFits, InsertOpen;
    if KeyStep(step) {
      KeyIs(s, step, s');
      hide RowNext;
    } else {
      RowIs(s, step, s');
      hide KeyNext;
    }
  }

  /** Where an owner of a key comes from. */
  lemma OwnersComeFrom(s: Store, step: Step, s': Store, o: Owner, key: Key)
    requires Next(s, step, s') && Owns(s', o, key)
    ensures Owns(s, o, key)
            || (step.CommitComplete? && Owns(s, OfSession(step.id), key))
            || (step.PutInsert? && Owns(s, OfPut(step.p), key))
            || ((step.Create? || step.PutObject?) && key !in s.used)
  {
    hide Next;
    match o
    case OfSession(id) => KeyOfSession(s, step, s', id);
    case OfBlob(d) => KeyOfBlob(s, step, s', d);
    case OfPut(p) => KeyOfPut(s, step, s', p);
    case OfDuplicate => KeyOfDuplicate(s, step, s', key);
  }

  lemma KeysKept(s: Store, step: Step, s': Store)
    requires KeysOk(s) && Next(s, step, s')
    ensures KeysOk(s')
  {
    hide Next, Owns, KeysOk;
    if step.Create? || step.PutObject? { FreshKeys(s, step, s'); }
    else if MovesKeys(step) { PassKeys(s, step, s'); }
    else {
      forall o, key | Owns(s', o, key) ensures Owns(s, o, key) { OwnersComeFrom(s, step, s', o, key); }
      UsedKeys(s, step, s');
      FewerOwners(s, s');
    }
  }

  lemma PassKeys(s: Store, step: Step, s': Store)
    requires KeysOk(s) && Next(s, step, s') && (step.CommitComplete? || step.PutInsert?)
    ensures KeysOk(s')
  {
    hide Committed, PutDone, KeysOk, InsertOpen;
    match step
    case CommitComplete(id) => CommitKeys(s, id);
    case PutInsert(p) => PutKeys(s, p);
  }

  // ---- What a step does to one key ------------------------------------------

  /** The key whose object, upload or signature the step concerns. */
  function Concerns(s: Store, step: Step): Option<Key> {
    match step
    case Create(_, _, key, _) => Some(key)
    case Sign(id) => if id in s.sessions then Some(s.sessions[id].key) else None
    case ClientPut(key, _) => Some(key)
    case Materialize(key, _) => Some(key)
    case RemoveStaged(id, _) => if id in s.sessions then Some(s.sessions[id].key) else None
    case RemovalLost(id, _) => if id in s.sessions then Some(s.sessions[id].key) else None
    case LateRemoval(key) => Some(key)
    case PutObject(_, key, _) => Some(key)
    case DropDuplicate(key) => Some(key)
    case DuplicateForgotten(key) => Some(key)
    case _ => None
  }

  /** The object store is as it was at this key. */
  predicate KeyKept(s: Store, s': Store, key: Key) {
    && (key in s'.objects <==> key in s.objects) && (key in s.objects ==> s'.objects[key] == s.objects[key])
    && (key in s'.signed <==> key in s.signed) && (key in s.signed ==> s'.signed[key] == s.signed[key])
    && (key in s'.multiparts <==> key in s.multiparts) && (key in s'.removals <==> key in s.removals)
  }

  lemma OtherObjectsKept(s: Store, step: Step, s': Store, key: Key)
    requires Next(s, step, s') && Concerns(s, step) != Some(key)
    ensures (key in s'.objects <==> key in s.objects) && (key in s.objects ==> s'.objects[key] == s.objects[key])
  {
    hide Next;
    Frame(s, step, s');
    hide RowNext;
  }

  lemma OtherUploadsKept(s: Store, step: Step, s': Store, key: Key)
    requires Next(s, step, s') && Concerns(s, step) != Some(key)
    ensures (key in s'.signed <==> key in s.signed) && (key in s.signed ==> s'.signed[key] == s.signed[key])
    ensures (key in s'.multiparts <==> key in s.multiparts) && (key in s'.removals <==> key in s.removals)
  {
    hide Next;
    Frame(s, step, s');
    hide RowNext;
  }

  lemma OtherKeysKept(s: Store, step: Step, s': Store, key: Key)
    requires Next(s, step, s') && Concerns(s, step) != Some(key)
    ensures KeyKept(s, s', key)
  {
    OtherObjectsKept(s, step, s', key);
    OtherUploadsKept(s, step, s', key);
    hide Next;
  }

  /** Whose key a step of a request concerns. */
  lemma ConcernsOwner(s: Store, step: Step, s': Store, key: Key)
    requires Next(s, step, s') && Concerns(s, step) == Some(key)
    ensures match step
            case Sign(id) => Owns(s, OfSession(id), key)
            case RemoveStaged(id, _) => Owns(s, OfSession(id), key)
            case RemovalLost(id, _) => Owns(s, OfSession(id), key)
            case DropDuplicate(_) => Owns(s, OfDuplicate, key)
            case DuplicateForgotten(_) => Owns(s, OfDuplicate, key)
            case Create(_, _, _, _) => key !in s.used
            case PutObject(_, _, _) => key !in s.used
            case _ => step.ClientPut? || step.Materialize? || step.LateRemoval?
  {
    hide ObjectFits, InsertOpen;
  }

  /** A step concerns an owned key only on behalf of the session that owns it, of a client or of
      the object store, or where a duplicate is dropped. */
  lemma ConcernsOwned(s: Store, step: Step, s': Store, o: Owner, key: Key)
    requires KeysOk(s) && Next(s, step, s') && Concerns(s, step) == Some(key) && Owns(s, o, key) && !o.OfDuplicate?
    ensures step.ClientPut? || step.Materialize? || step.LateRemoval?
            || ((step.Sign? || step.RemoveStaged? || step.RemovalLost?) && o == OfSession(step.id))
  {
    ConcernsOwner(s, step, s', key);
    hide Next, Owns, Concerns;
  }

  // ---- The invariant --------------------------------------------------------

  /** Multipart uploads are above the part size; nothing is stored for them twice. The object
      of a single upload is what its digest says, and a checked object has the right size. */
  predicate SessionOk(s: Store, u: Session) {
    && u.size <= MAX_UPLOAD && u.multipart == (u.size > PART_SIZE)
    && (u.key in s.signed ==> !u.multipart && s.signed[u.key] == u.digest)
    && (!u.multipart ==> u.key !in s.multiparts && (u.key in s.objects ==> DigestOf(s.objects[u.key]) == u.digest))
    && (u.key in s.multiparts ==> u.key !in s.objects)
    && (u.work.Checked() ==>
          && (u.key in s.objects || u.key in s.removals) && u.key !in s.multiparts
          && (u.key in s.objects ==> |s.objects[u.key]| == u.size))
    && (u.work.Checked() && !u.multipart ==> |u.digest.content| == u.size)
    && (u.work == Inserted(true) ==> u.digest !in s.blobs)
  }

  /** A direct put has its object, which nobody else can change. */
  predicate PutOk(s: Store, u: Put) {
    && u.key in s.objects && DigestOf(s.objects[u.key]) == u.digest
    && u.key !in s.multiparts && u.key !in s.signed && u.key !in s.removals
  }

  /** The sizes of uploads in parts, whose content nothing compares with the digest. */
  predicate Unchecked(size: nat) {
    PART_SIZE < size <= MAX_UPLOAD
  }

  /** A row has its object unless a removal of it is outstanding or done; an object that is not
      of such a size is what its digest says, and so is everything a client may still put. */
  predicate BlobOk(s: Store, d: Digest, key: Key) {
    && (key in s.objects || key in s.removals) && key !in s.multiparts
    && (key in s.signed ==> s.signed[key] == d)
    && (key in s.objects && (key in s.signed || !Unchecked(|s.objects[key]|)) ==> DigestOf(s.objects[key]) == d)
  }

  /** No two open transactions have inserted a row for the same digest. */
  predicate OneWinner(s: Store) {
    forall a, b :: (a in s.sessions && b in s.sessions && s.sessions[a].work == Inserted(true)
                    && s.sessions[b].work == Inserted(true) && s.sessions[a].digest == s.sessions[b].digest) ==> a == b
  }

  ghost predicate ContentOk(s: Store) {
    && (forall id :: id in s.sessions ==> SessionOk(s, s.sessions[id]))
    && (forall p :: p in s.puts ==> PutOk(s, s.puts[p]))
    && (forall d :: d in s.blobs ==> BlobOk(s, d, s.blobs[d]))
  }

  ghost predicate Inv(s: Store) {
    KeysOk(s) && OneWinner(s) && ContentOk(s)
  }

  // ---- Sessions -------------------------------------------------------------

  /** The stages a session goes through. */
  predicate LegalWork(s: Store, u: Session, w: Work) {
    || w == u.work || !w.Checked()
    || (w.Verified? && ObjectFits(s, u))
    || (u.work.Verified? && w == Inserted(u.digest !in s.blobs))
  }

  lemma CreatesOther(s: Store, step: Step, s': Store, id: Id)
    requires KeysUsed(s) && step.Create? && KeyNext(s, step, s') && id in s.sessions
    ensures id in s'.sessions && s'.sessions[id] == s.sessions[id]
  {
  }

  lemma SessionMoves(s: Store, step: Step, s': Store, id: Id)
    requires KeysUsed(s) && Next(s, step, s') && id in s.sessions && id in s'.sessions
    ensures s'.sessions[id] == s.sessions[id].(work := s'.sessions[id].work) && LegalWork(s, s.sessions[id], s'.sessions[id].work)
    ensures Concerns(s, step).Some? ==> s'.sessions[id] == s.sessions[id]
  {
    hide Next;
    Frame(s, step, s');
    hide ObjectFits, InsertOpen, KeyNext;
    if step.Create? { CreatesOther(s, step, s', id); }
  }

  /** While a transaction has inserted the row of a digest, nobody else commits one. */
  lemma WinnerWaits(s: Store, step: Step, s': Store, id: Id)
    requires OneWinner(s) && Next(s, step, s') && id in s.sessions && id in s'.sessions
    requires s'.sessions[id].work == Inserted(true) && s.sessions[id].digest !in s.blobs
    ensures s.sessions[id].digest !in s'.blobs
  {
    hide Next, ObjectFits;
    Frame(s, step, s');
    hide KeyNext;
  }

  lemma SessionAdvances(s: Store, s': Store, u: Session, u': Session)
    requires SessionOk(s, u) && KeyKept(s, s', u.key)
    requires u' == u.(work := u'.work) && LegalWork(s, u, u'.work)
    requires u'.work == Inserted(true) ==> u.digest !in s'.blobs
    ensures SessionOk(s', u')
  {
  }

  lemma OwnKeyKept(s: Store, step: Step, s': Store, id: Id)
    requires Next(s, step, s') && id in s.sessions && SessionOk(s, s.sessions[id])
    requires Concerns(s, step) == Some(s.sessions[id].key) && s'.blobs == s.blobs
    requires step.ClientPut? || step.Materialize? || step.LateRemoval?
             || ((step.Sign? || step.RemoveStaged? || step.RemovalLost?) && step.id == id)
    ensures SessionOk(s', s.sessions[id])
  {
  }

  lemma ConcernsKeepBlobs(s: Store, step: Step, s': Store)
    requires Next(s, step, s') && Concerns(s, step).Some?
    ensures s'.blobs == s.blobs
  {
    hide Next;
    Frame(s, step, s');
    hide KeyNext, RowNext;
  }

  lemma SessionComes(s: Store, step: Step, s': Store, id: Id)
    requires KeysOk(s) && Next(s, step, s') && id in s'.sessions && id !in s.sessions
    ensures SessionOk(s', s'.sessions[id])
  {
    hide Next;
    Frame(s, step, s');
    hide ObjectFits, InsertOpen, Owns, RowNext;
  }

  lemma SessionKept(s: Store, step: Step, s': Store, id: Id)
    requires Inv(s) && Next(s, step, s') && id in s'.sessions
    ensures SessionOk(s', s'.sessions[id])
  {
    assert KeysUsed(s);
    hide Next, SessionOk, KeysOk, KeysUsed, OneWinner, LegalWork, PutOk, BlobOk, Concerns, KeyKept;
    if id !in s.sessions {
      SessionComes(s, step, s', id);
      return;
    }
    var u := s.sessions[id];
    SessionMoves(s, step, s', id);
    if Concerns(s, step) == Some(u.key) {
      assert Owns(s, OfSession(id), u.key);
      ConcernsOwned(s, step, s', OfSession(id), u.key);
      ConcernsKeepBlobs(s, step, s');
      OwnKeyKept(s, step, s', id);
    } else {
      OtherKeysKept(s, step, s', u.key);
      if s'.sessions[id].work == Inserted(true) {
        FreshDigest(s, u, s'.sessions[id].work);
        WinnerWaits(s, step, s', id);
      }
      SessionAdvances(s, s', u, s'.sessions[id]);
    }
  }

  lemma FreshDigest(s: Store, u: Session, w: Work)
    requires SessionOk(s, u) && LegalWork(s, u, w) && w == Inserted(true)
    ensures u.digest !in s.blobs
  {
  }

  lemma WinnerKept(s: Store, step: Step, s': Store)
    requires OneWinner(s) && Next(s, step, s')
    ensures OneWinner(s')
  {
    hide ObjectFits, Next, OneWinner;
    forall a, b | a in s'.sessions && b in s'.sessions && s'.sessions[a].work == Inserted(true)
                  && s'.sessions[b].work == Inserted(true) && s'.sessions[a].digest == s'.sessions[b].digest
      ensures a == b
    {
      OnlyWinner(s, step, s', a, b);
    }
    assert OneWinner(s') by { WinnersAreOne(s'); }
  }

  lemma WinnersAreOne(s: Store)
    requires forall a, b :: (a in s.sessions && b in s.sessions && s.sessions[a].work == Inserted(true)
                             && s.sessions[b].work == Inserted(true) && s.sessions[a].digest == s.sessions[b].digest) ==> a == b
    ensures OneWinner(s)
  {
  }

  lemma CreatedIdle(s: Store, step: Step, s': Store, a: Id)
    requires step.Create? && KeyNext(s, step, s') && a in s'.sessions && s'.sessions[a].work == Inserted(true)
    ensures At(s, a, Inserted(true)) && s.sessions[a] == s'.sessions[a]
  {
  }

  /** A transaction that has inserted a row did so before, or does so now as the only one. */
  lemma WinnerComesFrom(s: Store, step: Step, s': Store, a: Id)
    requires Next(s, step, s') && a in s'.sessions && s'.sessions[a].work == Inserted(true)
    ensures || (At(s, a, Inserted(true)) && s.sessions[a].digest == s'.sessions[a].digest)
            || (step == InsertRow(a) && !InsertOpen(s, s'.sessions[a].digest))
  {
    hide Next, ObjectFits, InsertOpen;
    Frame(s, step, s');
    if KeyStep(step) {
      hide RowNext;
      if step.Create? { CreatedIdle(s, step, s', a); }
    } else {
      hide KeyNext;
    }
  }

  lemma OnlyWinner(s: Store, step: Step, s': Store, a: Id, b: Id)
    requires OneWinner(s) && Next(s, step, s') && a in s'.sessions && b in s'.sessions
    requires s'.sessions[a].work == Inserted(true) && s'.sessions[b].work == Inserted(true)
    requires s'.sessions[a].digest == s'.sessions[b].digest
    ensures a == b
  {
    WinnerComesFrom(s, step, s', a);
    WinnerComesFrom(s, step, s', b);
    hide Next;
  }

  // ---- Puts and rows --------------------------------------------------------

  lemma PutKept(s: Store, step: Step, s': Store, p: Id)
    requires Inv(s) && Next(s, step, s') && p in s.puts && p in s'.puts
    ensures s'.puts[p] == s.puts[p] && PutOk(s', s'.puts[p])
  {
    hide Next, KeysOk, OneWinner, SessionOk, BlobOk, Concerns;
    PutStays(s, step, s', p);
    var key := s.puts[p].key;
    if Concerns(s, step) == Some(key) {
      assert Owns(s, OfPut(p), key);
      ConcernsOwned(s, step, s', OfPut(p), key);
      NotForClients(s, step, s', key);
    } else {
      OtherKeysKept(s, step, s', key);
    }
  }

  lemma PutStays(s: Store, step: Step, s': Store, p: Id)
    requires Next(s, step, s') && p in s.puts && p in s'.puts
    ensures s'.puts[p] == s.puts[p]
  {
    hide Next;
    Frame(s, step, s');
    hide RowNext;
  }

  lemma NotForClients(s: Store, step: Step, s': Store, key: Key)
    requires Next(s, step, s') && Concerns(s, step) == Some(key) && (step.ClientPut? || step.Materialize? || step.LateRemoval?)
    ensures key in s.signed || key in s.multiparts || key in s.removals
  {
  }

  lemma PutComes(s: Store, step: Step, s': Store, p: Id)
    requires KeysOk(s) && Next(s, step, s') && p !in s.puts && p in s'.puts
    ensures PutOk(s', s'.puts[p])
  {
    hide Next;
    Frame(s, step, s');
    hide ObjectFits, InsertOpen, Owns, RowNext;
  }

  /** Rows keep their keys, and an object that is there before and after is the same. */
  lemma BlobKept(s: Store, step: Step, s': Store, d: Digest)
    requires Inv(s) && Next(s, step, s') && d in s.blobs
    ensures d in s'.blobs && s'.blobs[d] == s.blobs[d]
    ensures BlobOk(s', d, s.blobs[d])
    ensures s.blobs[d] in s'.removals <==> s.blobs[d] in s.removals
    ensures s.blobs[d] in s'.signed <==> s.blobs[d] in s.signed
    ensures s.blobs[d] in s.objects && s.blobs[d] !in s'.objects ==> s.blobs[d] in s.removals
    ensures s.blobs[d] in s.objects && s.blobs[d] in s'.objects ==> s'.objects[s.blobs[d]] == s.objects[s.blobs[d]]
    ensures s.blobs[d] !in s.objects && s.blobs[d] in s'.objects ==>
              s.blobs[d] in s.signed && DigestOf(s'.objects[s.blobs[d]]) == d
  {
    hide Next, KeysOk, OneWinner, SessionOk, PutOk, Concerns;
    BlobStays(s, step, s', d);
    var key := s.blobs[d];
    if Concerns(s, step) == Some(key) {
      assert Owns(s, OfBlob(d), key);
      ConcernsOwned(s, step, s', OfBlob(d), key);
      BlobTouched(s, step, s', d, key);
    } else {
      OtherKeysKept(s, step, s', key);
    }
  }

  lemma BlobStays(s: Store, step: Step, s': Store, d: Digest)
    requires Inv(s) && Next(s, step, s') && d in s.blobs
    ensures d in s'.blobs && s'.blobs[d] == s.blobs[d]
  {
    hide Next, KeysOk, OneWinner, ObjectFits, InsertOpen, PutOk, BlobOk;
    Frame(s, step, s');
    hide KeyNext;
  }

  lemma BlobTouched(s: Store, step: Step, s': Store, d: Digest, key: Key)
    requires Next(s, step, s') && BlobOk(s, d, key) && Concerns(s, step) == Some(key)
    requires step.ClientPut? || step.Materialize? || step.LateRemoval?
    ensures BlobOk(s', d, key) && (key in s'.removals <==> key in s.removals) && (key in s'.signed <==> key in s.signed)
    ensures key in s.objects && key !in s'.objects ==> key in s.removals
    ensures key in s.objects && key in s'.objects ==> s'.objects[key] == s.objects[key]
    ensures key !in s.objects && key in s'.objects ==> key in s.signed && DigestOf(s'.objects[key]) == d
  {
  }

  /** A new row comes from a completed upload or a put. */
  lemma BlobComes(s: Store, step: Step, s': Store, d: Digest)
    requires Inv(s) && Next(s, step, s') && d !in s.blobs && d in s'.blobs
    ensures BlobOk(s', d, s'.blobs[d])
  {
    hide Next, KeysOk, OneWinner, InsertOpen, ObjectFits;
    Frame(s, step, s');
    hide KeyNext;
    if step.CommitComplete? { assert SessionOk(s, s.sessions[step.id]); }
  }

  lemma StepInv(s: Store, step: Step, s': Store)
    requires Inv(s) && Next(s, step, s')
    ensures Inv(s')
  {
    hide Next, KeysOk, OneWinner, SessionOk, PutOk, BlobOk;
    KeysKept(s, step, s');
    WinnerKept(s, step, s');
    forall id | id in s'.sessions ensures SessionOk(s', s'.sessions[id]) {
      SessionKept(s, step, s', id);
    }
    forall p | p in s'.puts ensures PutOk(s', s'.puts[p]) {
      if p in s.puts { PutKept(s, step, s', p); } else { PutComes(s, step, s', p); }
    }
    forall d | d in s'.blobs ensures BlobOk(s', d, s'.blobs[d]) {
      if d in s.blobs { BlobKept(s, step, s', d); } else { BlobComes(s, step, s', d); }
    }
  }

  // ---- Over whole runs ------------------------------------------------------

  lemma {:induction false} RunInv(trace: seq<Store>, steps: seq<Step>, i: nat)
    requires IsRun(trace, steps) && i < |trace|
    ensures Inv(trace[i])
  {
    hide Next, Inv;
    if i == 0 { EmptyInv(); } else {
      RunInv(trace, steps, i - 1);
      StepInv(trace[i - 1], steps[i - 1], trace[i]);
    }
  }

  lemma EmptyInv()
    ensures Inv(EMPTY_STORE)
  {
  }

  /** Live sessions and blob rows never share an object. */
  lemma SessionsAndBlobsAreDisjoint(trace: seq<Store>, steps: seq<Step>, i: nat, id: Id, d: Digest)
    requires IsRun(trace, steps) && i < |trace| && id in trace[i].sessions && d in trace[i].blobs
    ensures trace[i].sessions[id].key != trace[i].blobs[d]
  {
    hide Next, ContentOk, OneWinner;
    RunInv(trace, steps, i);
    assert Owns(trace[i], OfBlob(d), trace[i].blobs[d]);
    assert Owns(trace[i], OfSession(id), trace[i].sessions[id].key);
  }

  /** The step takes the row lock of the session for a request, or gives it back. */
  predicate Begins(step: Step, id: Id) {
    step == LockComplete(id) || step == LockAbort(id)
  }

  predicate Gives(step: Step, id: Id) {
    step == Rollback(id) || step == CommitComplete(id) || step == CommitAbort(id)
  }

  lemma BusyStays(s: Store, step: Step, s': Store, id: Id)
    requires KeysUsed(s) && Next(s, step, s') && id in s.sessions && s.sessions[id].work != Idle && !Gives(step, id)
    ensures id in s'.sessions && s'.sessions[id].work != Idle && !Begins(step, id)
  {
    hide Next;
    Frame(s, step, s');
    hide ObjectFits, InsertOpen, KeyNext;
    if step.Create? { CreatesOther(s, step, s', id); }
  }

  lemma {:induction false} BusyUntilGiven(trace: seq<Store>, steps: seq<Step>, i: nat, j: nat, id: Id)
    requires IsRun(trace, steps) && i < j <= |steps| && Begins(steps[i], id)
    requires forall k :: i < k < j ==> !Gives(steps[k], id)
    ensures id in trace[j].sessions && trace[j].sessions[id].work != Idle
  {
    if i + 1 < j {
      hide IsRun, Next, Inv;
      BusyUntilGiven(trace, steps, i, j - 1, id);
      UsedInRun(trace, steps, j - 1);
      BusyStays(trace[j - 1], steps[j - 1], trace[j], id);
    } else {
      assert Next(trace[i], steps[i], trace[i + 1]);
    }
  }

  lemma UsedInRun(trace: seq<Store>, steps: seq<Step>, i: nat)
    requires IsRun(trace, steps) && i < |steps|
    ensures i + 1 < |trace| && KeysUsed(trace[i]) && Next(trace[i], steps[i], trace[i + 1])
  {
    hide Next, OneWinner, ContentOk;
    RunInv(trace, steps, i);
  }

  /** One request at a time works on a session: between two that take its row lock, the first has given
      it back. */
  lemma RequestsTakeTurns(trace: seq<Store>, steps: seq<Step>, i: nat, j: nat, id: Id)
    requires IsRun(trace, steps) && i < j < |steps| && Begins(steps[i], id) && Begins(steps[j], id)
    ensures exists k :: i < k < j && Gives(steps[k], id)
  {
    hide IsRun, Next;
    if forall k :: i < k < j ==> !Gives(steps[k], id) {
      BusyUntilGiven(trace, steps, i, j, id);
      UsedInRun(trace, steps, j);
      if !Gives(steps[j], id) { BusyStays(trace[j], steps[j], trace[j + 1], id); }
    }
  }

  /** Referential integrity: once a digest has a row it keeps that row, whatever uploads, aborts,
      sweeps, puts and dropped duplicates do; the row's object never changes, and is there for
      good unless a removal of it had been given up unanswered. */
  lemma {:induction false} CommittedBlobsStay(trace: seq<Store>, steps: seq<Step>, i: nat, j: nat, d: Digest)
    requires IsRun(trace, steps) && i <= j < |trace| && d in trace[i].blobs
    ensures d in trace[j].blobs && trace[j].blobs[d] == trace[i].blobs[d]
    ensures var key := trace[i].blobs[d];
            && (key in trace[j].removals <==> key in trace[i].removals) && (key in trace[j].signed <==> key in trace[i].signed)
            && (key !in trace[i].removals ==> key in trace[i].objects && key in trace[j].objects)
            && (key in trace[i].objects && key in trace[j].objects ==> trace[j].objects[key] == trace[i].objects[key])
            && (key in trace[i].objects && key !in trace[j].objects ==> key in trace[i].removals)
  {
    hide Next, KeysOk, OneWinner, SessionOk, PutOk;
    RunInv(trace, steps, i);
    if i < j {
      CommittedBlobsStay(trace, steps, i, j - 1, d);
      RunInv(trace, steps, j - 1);
      BlobKept(trace[j - 1], steps[j - 1], trace[j], d);
    }
  }

  /** A run goes on in some way. */
  ghost predicate Extends(trace: seq<Store>, steps: seq<Step>, trace': seq<Store>, steps': seq<Step>) {
    IsRun(trace', steps') && |trace| <= |trace'| && trace'[..|trace|] == trace
  }

  ghost predicate ObjectSafe(trace: seq<Store>, steps: seq<Step>, key: Key, content: Bytes) {
    forall trace': seq<Store>, steps': seq<Step> :: Extends(trace, steps, trace', steps') ==>
      var last := trace'[|trace'| - 1]; key in last.objects && last.objects[key] == content
  }

  /** The object of a row is safe in everything that may still happen if and only if no removal
      of it was given up. */
  lemma RowsAreSafeExactly(trace: seq<Store>, steps: seq<Step>, d: Digest)
    requires IsRun(trace, steps) && d in trace[|steps|].blobs && trace[|steps|].blobs[d] in trace[|steps|].objects
    ensures var s := trace[|steps|];
            ObjectSafe(trace, steps, s.blobs[d], s.objects[s.blobs[d]]) <==> s.blobs[d] !in s.removals
  {
    hide Next;
    var s := trace[|steps|];
    var key := s.blobs[d];
    if key in s.removals {
      var s' := s.(objects := s.objects - {key});
      LateNext(s, key);
      var trace', steps' := Then(trace, steps, LateRemoval(key), s');
      assert Extends(trace, steps, trace', steps');
      assert key !in trace'[|trace'| - 1].objects;
    } else {
      forall trace': seq<Store>, steps': seq<Step> | Extends(trace, steps, trace', steps')
        ensures var last := trace'[|trace'| - 1]; key in last.objects && last.objects[key] == s.objects[key]
      {
        assert trace'[|steps|] == s;
        CommittedBlobsStay(trace', steps', |steps|, |steps'|, d);
      }
    }
  }

  lemma LateNext(s: Store, key: Key)
    requires key in s.removals
    ensures Next(s, LateRemoval(key), s.(objects := s.objects - {key}))
  {
  }

  // ---- When a row can lose its object ---------------------------------------

  ghost predicate Unowned(s: Store, key: Key) {
    key in s.used && forall o :: !Owns(s, o, key)
  }

  lemma UnownedStep(s: Store, step: Step, s': Store, key: Key)
    requires Unowned(s, key) && Next(s, step, s')
    ensures Unowned(s', key)
  {
    UsedStays(s, step, s');
    hide Next, Owns;
    forall o ensures !Owns(s', o, key) {
      if Owns(s', o, key) {
        OwnersComeFrom(s, step, s', o, key);
        assert false;
      }
    }
  }

  lemma UsedStays(s: Store, step: Step, s': Store)
    requires Next(s, step, s')
    ensures s.used <= s'.used
  {
    hide Next;
    Frame(s, step, s');
    hide RowNext;
  }

  lemma {:induction false} UnownedStays(trace: seq<Store>, steps: seq<Step>, i: nat, j: nat, key: Key)
    requires IsRun(trace, steps) && i <= j < |trace| && Unowned(trace[i], key)
    ensures Unowned(trace[j], key)
  {
    hide Next, Unowned;
    if i < j {
      UnownedStays(trace, steps, i, j - 1, key);
      UnownedStep(trace[j - 1], steps[j - 1], trace[j], key);
    }
  }

  /** Removals are given up where a session is aborted or a duplicate dropped. */
  lemma RemovalComes(s: Store, step: Step, s': Store, key: Key)
    requires Next(s, step, s') && key in s'.removals && key !in s.removals
    ensures step == DuplicateForgotten(key) || (step.RemovalLost? && step.id in s.sessions && s.sessions[step.id].key == key)
  {
    hide Next;
    Frame(s, step, s');
    hide RowNext;
  }

  lemma {:induction false} RemovalCame(trace: seq<Store>, steps: seq<Step>, i: nat, key: Key) returns (k: nat)
    requires IsRun(trace, steps) && i < |trace| && key in trace[i].removals
    ensures k < i && key !in trace[k].removals && key in trace[k + 1].removals
  {
    hide Next;
    if key !in trace[i - 1].removals { k := i - 1; } else { k := RemovalCame(trace, steps, i - 1, key); }
  }

  lemma ForgottenIsUnowned(s: Store, s': Store, key: Key)
    requires KeysOk(s) && Next(s, DuplicateForgotten(key), s')
    ensures Unowned(s', key)
  {
    assert Owns(s, OfDuplicate, key);
    forall o ensures !Owns(s', o, key) {
      if Owns(s', o, key) { assert Owns(s, o, key); }
    }
  }

  /** A row misses its object only after a request to abort that very upload failed on the
      object, and the upload was completed all the same. */
  lemma LostAfterFailedAbort(trace: seq<Store>, steps: seq<Step>, i: nat, d: Digest) returns (k: nat)
    requires IsRun(trace, steps) && i < |trace| && d in trace[i].blobs && trace[i].blobs[d] !in trace[i].objects
    ensures k < i && steps[k].RemovalLost? && steps[k].id in trace[k].sessions
    ensures trace[k].sessions[steps[k].id].key == trace[i].blobs[d]
  {
    hide Next, KeysOk, OneWinner, SessionOk, PutOk, Unowned;
    RunInv(trace, steps, i);
    var key := trace[i].blobs[d];
    k := RemovalCame(trace, steps, i, key);
    RemovalComes(trace[k], steps[k], trace[k + 1], key);
    if steps[k] == DuplicateForgotten(key) {
      RunInv(trace, steps, k);
      ForgottenIsUnowned(trace[k], trace[k + 1], key);
      UnownedStays(trace, steps, k + 1, i, key);
      NotUnowned(trace[i], OfBlob(d), key);
    }
  }

  lemma NotUnowned(s: Store, o: Owner, key: Key)
    requires Owns(s, o, key)
    ensures !Unowned(s, key)
  {
  }

  /** Such a run exists for every content that is uploaded in one piece. */
  lemma FailedAbortCanLoseABlob(content: Bytes, key: Key, id: Id) returns (trace: seq<Store>, steps: seq<Step>)
    requires |content| <= PART_SIZE
    ensures IsRun(trace, steps) && DigestOf(content) in trace[|steps|].blobs
    ensures trace[|steps|].blobs[DigestOf(content)] == key && key !in trace[|steps|].objects
  {
    var digest := DigestOf(content);
    var s1 := Created(EMPTY_STORE, id, digest, key, |content|);
    trace, steps := Then([EMPTY_STORE], [], Create(id, digest, key, |content|), s1);
    var s2 := s1.(signed := map[key := digest]);
    trace, steps := Then(trace, steps, Sign(id), s2);
    var s3 := s2.(objects := map[key := content]);
    trace, steps := Then(trace, steps, ClientPut(key, content), s3);
    var s6 := s3.(removals := {key});
    trace, steps := AbortFails(trace, steps, s3, s6, id, key);
    hide Next, IsRun;
    trace, steps := UploadCompletes(trace, steps, s6, id);
    LateNext(trace[|steps|], key);
    var last := trace[|steps|];
    trace, steps := Then(trace, steps, LateRemoval(key), last.(objects := last.objects - {key}));
  }

  /** An abort whose removal of the object stays unanswered gives its row lock back. */
  lemma AbortFails(trace: seq<Store>, steps: seq<Step>, s: Store, s': Store, id: Id, key: Key)
      returns (trace': seq<Store>, steps': seq<Step>)
    requires IsRun(trace, steps) && trace[|steps|] == s && At(s, id, Idle) && s.sessions[id].key == key
    requires s' == s.(removals := s.removals + {key})
    ensures IsRun(trace', steps') && trace'[|steps'|] == s'
  {
    var s1 := SetWork(s, id, Aborting);
    trace', steps' := Then(trace, steps, LockAbort(id), s1);
    var s2 := WithoutStaged(s1, key, false, false);
    trace', steps' := Then(trace', steps', RemovalLost(id, false), s2);
    assert SetWork(s2, id, Idle) == s';
    trace', steps' := Then(trace', steps', Rollback(id), s');
  }

  // ---- What a row's object contains -----------------------------------------

  /** The object of a row has exactly the content its digest stands for, unless its size is that
      of an upload in parts. */
  lemma BlobContentIsItsDigest(trace: seq<Store>, steps: seq<Step>, i: nat, d: Digest)
    requires IsRun(trace, steps) && i < |trace| && d in trace[i].blobs && trace[i].blobs[d] in trace[i].objects
    requires !Unchecked(|trace[i].objects[trace[i].blobs[d]]|)
    ensures DigestOf(trace[i].objects[trace[i].blobs[d]]) == d
  {
    hide Next, KeysOk, OneWinner, SessionOk, PutOk;
    RunInv(trace, steps, i);
  }

  /** A key given to a direct put belongs to its content for ever. */
  predicate PutKeyOk(s: Store, key: Key, content: Bytes) {
    && key in s.used && key !in s.signed && key !in s.multiparts
    && (key in s.objects ==> s.objects[key] == content)
    && (forall id :: id in s.sessions ==> s.sessions[id].key != key)
    && (forall p :: p in s.puts && s.puts[p].key == key ==> s.puts[p].digest == DigestOf(content))
    && (forall d :: d in s.blobs && s.blobs[d] == key ==> d == DigestOf(content))
  }

  lemma PutKeyStep(s: Store, step: Step, s': Store, key: Key, content: Bytes)
    requires PutKeyOk(s, key, content) && Next(s, step, s')
    ensures PutKeyOk(s', key, content)
  {
    UsedStays(s, step, s');
    PutKeyObject(s, step, s', key, content);
    PutKeyRows(s, step, s', key, content);
    hide Next;
  }

  lemma PutKeyObject(s: Store, step: Step, s': Store, key: Key, content: Bytes)
    requires PutKeyOk(s, key, content) && Next(s, step, s')
    ensures key !in s'.signed && key !in s'.multiparts && (key in s'.objects ==> s'.objects[key] == content)
  {
    hide ObjectFits, InsertOpen;
    if Concerns(s, step) != Some(key) {
      OtherKeysKept(s, step, s', key);
      hide Next;
    } else {
      ConcernsOwner(s, step, s', key);
    }
  }

  lemma PutKeyRows(s: Store, step: Step, s': Store, key: Key, content: Bytes)
    requires PutKeyOk(s, key, content) && Next(s, step, s')
    ensures forall id :: id in s'.sessions ==> s'.sessions[id].key != key
    ensures forall p :: p in s'.puts && s'.puts[p].key == key ==> s'.puts[p].digest == DigestOf(content)
    ensures forall d :: d in s'.blobs && s'.blobs[d] == key ==> d == DigestOf(content)
  {
    hide Next;
    forall id | id in s'.sessions ensures s'.sessions[id].key != key { KeyOfSession(s, step, s', id); }
    forall p | p in s'.puts && s'.puts[p].key == key ensures s'.puts[p].digest == DigestOf(content) {
      KeyOfPut(s, step, s', p);
    }
    forall d | d in s'.blobs && s'.blobs[d] == key ensures d == DigestOf(content) { KeyOfBlob(s, step, s', d); }
  }

  lemma PutKeyStarts(s: Store, p: Id, key: Key, content: Bytes, s': Store)
    requires Inv(s) && Next(s, PutObject(p, key, content), s')
    ensures PutKeyOk(s', key, content)
  {
    hide ContentOk, OneWinner;
    forall o ensures !Owns(s, o, key) {
    }
    forall id | id in s.sessions ensures s.sessions[id].key != key { assert !Owns(s, OfSession(id), key); }
    forall q | q in s.puts ensures s.puts[q].key != key { assert !Owns(s, OfPut(q), key); }
    forall d | d in s.blobs ensures s.blobs[d] != key { assert !Owns(s, OfBlob(d), key); }
  }

  lemma {:induction false} PutKeyStays(trace: seq<Store>, steps: seq<Step>, i: nat, j: nat, key: Key, content: Bytes)
    requires IsRun(trace, steps) && i <= j < |trace| && PutKeyOk(trace[i], key, content)
    ensures PutKeyOk(trace[j], key, content)
  {
    hide Next, PutKeyOk;
    if i < j {
      PutKeyStays(trace, steps, i, j - 1, key, content);
      PutKeyStep(trace[j - 1], steps[j - 1], trace[j], key, content);
    }
  }

  /** Data stored by a direct put is what its row's digest stands for, whatever its size. */
  lemma PutContentIsItsDigest(trace: seq<Store>, steps: seq<Step>, k: nat, i: nat, d: Digest)
    requires IsRun(trace, steps) && k < i < |trace| && steps[k].PutObject?
    requires d in trace[i].blobs && trace[i].blobs[d] == steps[k].key
    ensures d == DigestOf(steps[k].content)
    ensures steps[k].key in trace[i].objects ==> trace[i].objects[steps[k].key] == steps[k].content
  {
    hide Next, Inv;
    RunInv(trace, steps, k);
    PutKeyStarts(trace[k], steps[k].p, steps[k].key, steps[k].content, trace[k + 1]);
    PutKeyStays(trace, steps, k + 1, i, steps[k].key, steps[k].content);
  }

  /** An upload in parts whose size fits gets its row whatever its parts contained. */
  lemma MultipartContentIsUnchecked(digest: Digest, content: Bytes, key: Key, id: Id) returns (trace: seq<Store>, steps: seq<Step>)
    requires DigestOf(content) != digest && Unchecked(|content|)
    ensures IsRun(trace, steps) && digest in trace[|steps|].blobs && key in trace[|steps|].objects
    ensures trace[|steps|].blobs[digest] == key && trace[|steps|].objects[key] == content
  {
    var s1 := Created(EMPTY_STORE, id, digest, key, |content|);
    var s2 := s1.(objects := map[key := content], multiparts := {});
    trace, steps := Then([EMPTY_STORE], [], Create(id, digest, key, |content|), s1);
    trace, steps := Then(trace, steps, Materialize(key, content), s2);
    hide Next, IsRun;
    trace, steps := UploadCompletes(trace, steps, s2, id);
  }

  /** Every object of this size that a row ever has is what the row's digest stands for. */
  ghost predicate Guaranteed(size: nat) {
    forall trace: seq<Store>, steps: seq<Step>, i: nat, d: Digest ::
      (IsRun(trace, steps) && i < |trace| && d in trace[i].blobs && trace[i].blobs[d] in trace[i].objects
       && |trace[i].objects[trace[i].blobs[d]]| == size) ==> DigestOf(trace[i].objects[trace[i].blobs[d]]) == d
  }

  /** Content is guaranteed exactly for sizes that are not uploaded in parts: up to the part
      size, and above the largest upload, which only direct puts reach. */
  lemma ContentGuaranteedExactly(size: nat)
    ensures Guaranteed(size) <==> size <= 8388608 || size > 83886080000
  {
    hide IsRun;
    if Unchecked(size) {
      var content: Bytes := seq(size, _ => 0);
      var trace, steps := MultipartContentIsUnchecked(DigestOf([]), content, 0, 0);
      assert |trace| == |steps| + 1 by { LastState(trace, steps); }
      assert DigestOf(trace[|steps|].objects[trace[|steps|].blobs[DigestOf([])]]) != DigestOf([]);
    } else {
      forall trace: seq<Store>, steps: seq<Step>, i: nat, d: Digest
        | IsRun(trace, steps) && i < |trace| && d in trace[i].blobs && trace[i].blobs[d] in trace[i].objects
          && |trace[i].objects[trace[i].blobs[d]]| == size
        ensures DigestOf(trace[i].objects[trace[i].blobs[d]]) == d
      {
        BlobContentIsItsDigest(trace, steps, i, d);
      }
    }
  }

  lemma LastState(trace: seq<Store>, steps: seq<Step>)
    requires IsRun(trace, steps)
    ensures |trace| == |steps| + 1
  {
  }

  /** An upload whose object fits, with no competitor, gets its row. */
  lemma UploadCompletes(trace: seq<Store>, steps: seq<Step>, s: Store, id: Id) returns (trace': seq<Store>, steps': seq<Step>)
    requires IsRun(trace, steps) && trace[|steps|] == s && At(s, id, Idle) && ObjectFits(s, s.sessions[id])
    requires s.sessions[id].digest !in s.blobs && forall x :: x in s.sessions ==> x == id
    ensures IsRun(trace', steps')
    ensures trace'[|steps'|].blobs == s.blobs[s.sessions[id].digest := s.sessions[id].key] && trace'[|steps'|].objects == s.objects
    ensures trace'[|steps'|].removals == s.removals
  {
    var s1 := SetWork(s, id, Completing);
    var s2 := SetWork(s1, id, Verified);
    var s3 := SetWork(s2, id, Inserted(true));
    assert Next(s, LockComplete(id), s1) && Next(s1, Verify(id), s2);
    assert Next(s2, InsertRow(id), s3) && Next(s3, CommitComplete(id), Committed(s3, id));
    assert Committed(s3, id).objects == s.objects && Committed(s3, id).removals == s.removals
           && Committed(s3, id).blobs == s.blobs[s.sessions[id].digest := s.sessions[id].key];
    hide *;
    trace', steps' := Then(trace, steps, LockComplete(id), s1);
    trace', steps' := Then(trace', steps', Verify(id), s2);
    trace', steps' := Then(trace', steps', InsertRow(id), s3);
    trace', steps' := Then(trace', steps', CommitComplete(id), Committed(s3, id));
  }

  lemma Then(trace: seq<Store>, steps: seq<Step>, step: Step, s': Store) returns (trace': seq<Store>, steps': seq<Step>)
    requires IsRun(trace, steps) && Next(trace[|steps|], step, s')
    ensures IsRun(trace', steps') && trace'[|steps'|] == s' && trace' == trace + [s'] && steps' == steps + [step]
  {
    hide Next;
    trace', steps' := trace + [s'], steps + [step];
  }
}
