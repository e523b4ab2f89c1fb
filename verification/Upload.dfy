/**
Chunked file upload (server/api/files.go): the recorded chunk list, the staged
chunk files and the assembly at completion. The digest is any function of the
bytes; failed disk writes may leave anything in a chunk file.
*/
module Upload {
  import opened Wrappers

  type Bytes = seq<bv8>
  type Digest = string

  const CHUNK_SIZE := 5 * 1024 * 1024
  const UPLOAD_EXPIRY := 24 * 3600

  /** How writing the chunk file and then the session row ends. */
  datatype ChunkFault = NoFault | DiskKept | DiskLeft(bytes: Bytes) | RowFails

  datatype Chunk = Chunk(index: int, body: Bytes, claimed: Option<Digest>, fault: ChunkFault, now: int)

  datatype Session = Session(total: nat, uploaded: seq<int>, staged: map<int, Bytes>, expiresAt: int)

  datatype Reply = Done | BadRequest | NotFound | Gone | Incomplete | Mismatch | SignatureInvalid | ServerError

  function TotalChunks(size: nat, chunk: nat): nat
    requires chunk > 0
  {
    (size + chunk - 1) / chunk
  }

  /** PostgreSQL array_remove. */
  function ArrayRemove(s: seq<int>, x: int): seq<int> {
    if s == [] then []
    else if s[0] == x then ArrayRemove(s[1..], x)
    else [s[0]] + ArrayRemove(s[1..], x)
  }

  /** The checks a chunk request passes before anything is written. */
  predicate Accepted(hash: Bytes -> Digest, s: Session, ch: Chunk) {
    && ch.now <= s.expiresAt
    && 0 <= ch.index < s.total
    && |ch.body| <= CHUNK_SIZE + 1
    && (ch.claimed.Some? ==> hash(ch.body) == ch.claimed.value)
  }

  function Receive(hash: Bytes -> Digest, s: Session, ch: Chunk): Session {
    if !Accepted(hash, s, ch) || ch.fault.DiskKept? then s
    else if ch.fault.DiskLeft? then s.(staged := s.staged[ch.index := ch.fault.bytes])
    else if ch.fault.RowFails? then s.(staged := s.staged[ch.index := ch.body])
    else s.(staged := s.staged[ch.index := ch.body],
            uploaded := ArrayRemove(s.uploaded, ch.index) + [ch.index],
            expiresAt := ch.now + UPLOAD_EXPIRY)
  }

  function ReceiveAll(hash: Bytes -> Digest, s: Session, chs: seq<Chunk>): Session {
    if chs == [] then s
    else Receive(hash, ReceiveAll(hash, s, chs[..|chs| - 1]), chs[|chs| - 1])
  }

  /** Chunk files 0, ..., n-1 in index order. */
  function Joined(staged: map<int, Bytes>, n: nat): Bytes
    requires forall i :: 0 <= i < n ==> i in staged
  {
    if n == 0 then [] else Joined(staged, n - 1) + staged[n - 1]
  }

  class UploadSession {
    const hash: Bytes -> Digest
    const expected: Digest
    ghost const start: Session
    var session: Session
    var completed: bool
    var stored: Option<Bytes>
    ghost var received: seq<Chunk>

    constructor (hash: Bytes -> Digest, expected: Digest, size: nat, now: int)
      requires size > 0
      ensures Valid() && this.hash == hash && this.expected == expected && !completed && stored == None
      ensures session == start == Session(TotalChunks(size, CHUNK_SIZE), [], map[], now + UPLOAD_EXPIRY)
      ensures received == []
    {
      this.hash, this.expected := hash, expected;
      session := Session(TotalChunks(size, CHUNK_SIZE), [], map[], now + UPLOAD_EXPIRY);
      start := Session(TotalChunks(size, CHUNK_SIZE), [], map[], now + UPLOAD_EXPIRY);
      completed, stored, received := false, None, [];
    }

    /** Until completion the session is what the chunk requests received so far make of it. */
    ghost predicate Valid()
      reads this
    {
      SessionOk(start) && (!completed ==> SessionOk(session) && session == ReceiveAll(hash, start, received))
    }

    method UploadChunk(ch: Chunk) returns (r: Reply)
      requires Valid()
      modifies this
      ensures Valid() && received == if old(completed) then old(received) else old(received) + [ch]
      ensures session == if old(completed) then old(session) else Receive(hash, old(session), ch)
      ensures r == Done <==> !old(completed) && Accepted(hash, old(session), ch) && ch.fault.NoFault?
      ensures r == NotFound <==> old(completed)
      ensures r == Gone <==> !old(completed) && ch.now > old(session).expiresAt
      ensures r == BadRequest <==>
                && !old(completed) && ch.now <= old(session).expiresAt
                && (ch.index < 0 || ch.index >= old(session).total || |ch.body| > 5 * 1024 * 1024 + 1 ||
                    (ch.claimed.Some? && hash(ch.body) != ch.claimed.value))
      ensures r == ServerError <==> !old(completed) && Accepted(hash, old(session), ch) && !ch.fault.NoFault?
      ensures r in {Done, NotFound, Gone, BadRequest, ServerError}
      ensures r == Done ==>
                && session.staged == old(session).staged[ch.index := ch.body]
                && session.expiresAt == ch.now + 24 * 3600 && session.total == old(session).total
                && forall i :: i in session.uploaded <==> i == ch.index || i in old(session).uploaded
      ensures r in {NotFound, Gone, BadRequest} ==> session == old(session)
      ensures r == ServerError ==>
                && session.uploaded == old(session).uploaded && session.expiresAt == old(session).expiresAt
                && session.staged == match ch.fault
                                     case DiskLeft(bytes) => old(session).staged[ch.index := bytes]
                                     case RowFails => old(session).staged[ch.index := ch.body]
                                     case _ => old(session).staged
      ensures completed == old(completed) && stored == old(stored)
    {
      if completed {
        return NotFound;
      }
      ReceiveOk(hash, session, ch);
      ArrayRemoveElements(session.uploaded, ch.index);
      ReceiveAllSnoc(hash, start, received, ch);
      hide ReceiveAll, SessionOk;
      received := received + [ch];
      if ch.now > session.expiresAt {
        return Gone;
      }
      if ch.index < 0 || ch.index >= session.total {
        return BadRequest;
      }
      if |ch.body| > CHUNK_SIZE + 1 {
        return BadRequest;
      }
      if ch.claimed.Some? && hash(ch.body) != ch.claimed.value {
        return BadRequest;
      }
      if ch.fault.DiskKept? {
        return ServerError;
      }
      if ch.fault.DiskLeft? {
        session := session.(staged := session.staged[ch.index := ch.fault.bytes]);
        return ServerError;
      }
      session := session.(staged := session.staged[ch.index := ch.body]);
      if ch.fault.RowFails? {
        return ServerError;
      }
      session := session.(uploaded := ArrayRemove(session.uploaded, ch.index) + [ch.index],
                          expiresAt := ch.now + UPLOAD_EXPIRY);
      return Done;
    }

    /** The staged chunks in index order; the indices of `unreadable` cannot be read back. */
    method Assemble(unreadable: set<int>) returns (assembled: Option<Bytes>)
      requires Complete(session)
      ensures assembled.Some? <==> Readable(session, unreadable)
      ensures assembled.Some? ==> assembled.value == Joined(session.staged, session.total)
    {
      var bytes: Bytes := [];
      for i := 0 to session.total
        invariant bytes == Joined(session.staged, i)
        invariant forall k :: 0 <= k < i ==> k !in unreadable
      {
        if i in unreadable {
          return None;
        }
        bytes := bytes + session.staged[i];
      }
      return Some(bytes);
    }

    /**
    `unreadable`: chunk files that cannot be read back; `saves`, `deletes`: the
    storage backend accepts the file, and deletes it again; `signature`: None if
    absent, else whether it verifies. On success the stored file joins the latest
    bytes of every chunk, and is the uploader's file if the chunks carried it.
    */
    method CompleteUpload(unreadable: set<int>, saves: bool, deletes: bool, signature: Option<bool>) returns (r: Reply)
      requires Valid()
      modifies this
      ensures Valid() && received == old(received)
      ensures r == Done <==>
                && !old(completed) && Complete(old(session)) && Readable(old(session), unreadable) && saves
                && hash(Joined(old(session).staged, old(session).total)) == expected && signature != Some(false)
      ensures r == Done ==> completed && session == old(session).(staged := map[])
      ensures r == Done ==> stored == Some(Joined(old(session).staged, old(session).total))
      ensures r == Done ==> stored == Some(LatestJoined(hash, start, received, start.total))
      ensures r == Done ==> forall file :: Uploads(file, start, received) ==> stored == Some(file)
      ensures r == Incomplete <==> !old(completed) && !Complete(old(session))
      ensures r == Mismatch <==>
                && !old(completed) && Complete(old(session)) && Readable(old(session), unreadable) && saves
                && hash(Joined(old(session).staged, old(session).total)) != expected
      ensures r == NotFound <==> old(completed)
      ensures r == ServerError <==>
                !old(completed) && Complete(old(session)) && !(Readable(old(session), unreadable) && saves)
      ensures r in {Done, NotFound, Incomplete, ServerError, Mismatch, SignatureInvalid}
      ensures r != Done ==> completed == old(completed) && session == old(session)
      ensures r in {Mismatch, SignatureInvalid} ==>
                stored == if deletes then None else Some(Joined(old(session).staged, old(session).total))
      ensures r in {NotFound, Incomplete, ServerError} ==> stored == old(stored)
    {
      if completed {
        return NotFound;
      }
      FullListIsComplete(session);
      if |session.uploaded| != session.total {
        return Incomplete;
      }
      CompletionStores(hash, start, received);
      hide ReceiveAll, SessionOk, Complete, Readable, Uploads, LatestJoined;
      var assembled := Assemble(unreadable);
      if assembled.None? || !saves {
        return ServerError;
      }
      stored := assembled;
      if hash(assembled.value) != expected {
        if deletes {
          stored := None;
        }
        return Mismatch;
      }
      if signature == Some(false) {
        if deletes {
          stored := None;
        }
        return SignatureInvalid;
      }
      completed := true;
      session := session.(staged := map[]);
      return Done;
    }
  }

  lemma ReceiveAllSnoc(hash: Bytes -> Digest, s: Session, chs: seq<Chunk>, ch: Chunk)
    ensures ReceiveAll(hash, s, chs + [ch]) == Receive(hash, ReceiveAll(hash, s, chs), ch)
  {
    assert (chs + [ch])[..|chs|] == chs;
  }

  /** POST /v1/files: null when the request is refused or its transaction fails. */
  method InitiateUpload(hash: Bytes -> Digest, filename: string, size: int, sha256: Digest, quotaOk: bool,
                        commits: bool, now: int)
    returns (u: UploadSession?)
    ensures u == null <==> filename == "" || size <= 0 || sha256 == "" || !quotaOk || !commits
    ensures u != null ==>
              && fresh(u) && u.Valid() && u.hash == hash && u.expected == sha256 && !u.completed && u.stored == None
              && u.session == u.start && u.start.uploaded == [] && u.start.staged == map[] && u.received == []
              && u.start.total > 0 && u.start.expiresAt == now + 24 * 3600
              && (u.start.total - 1) * (5 * 1024 * 1024) < size <= u.start.total * (5 * 1024 * 1024)
  {
    if filename == "" || size <= 0 || sha256 == "" || !quotaOk || !commits {
      return null;
    }
    u := new UploadSession(hash, sha256, size, now);
  }

  // ----- the recorded list -----

  ghost predicate NoDuplicates(s: seq<int>) {
    forall i, k :: 0 <= i < k < |s| ==> s[i] != s[k]
  }

  /** Duplicate-free, in range, and backed by staged bytes. */
  ghost predicate SessionOk(s: Session) {
    && NoDuplicates(s.uploaded)
    && forall i :: i in s.uploaded ==> 0 <= i < s.total && i in s.staged
  }

  /** Every chunk is recorded and staged. */
  ghost predicate Complete(s: Session) {
    forall i :: 0 <= i < s.total ==> i in s.uploaded && i in s.staged
  }

  ghost predicate Readable(s: Session, unreadable: set<int>) {
    forall i :: 0 <= i < s.total ==> i !in unreadable
  }

  lemma {:induction false} ArrayRemoveElements(s: seq<int>, x: int)
    requires NoDuplicates(s)
    ensures NoDuplicates(ArrayRemove(s, x))
    ensures forall y :: y in ArrayRemove(s, x) <==> y in s && y != x
  {
    if s != [] {
      ArrayRemoveElements(s[1..], x);
      assert s[0] !in s[1..];
      assert forall y :: y in s <==> y == s[0] || y in s[1..];
    }
  }

  lemma ReceiveOk(hash: Bytes -> Digest, s: Session, ch: Chunk)
    requires SessionOk(s)
    ensures SessionOk(Receive(hash, s, ch)) && Receive(hash, s, ch).total == s.total
    ensures s.staged.Keys <= Receive(hash, s, ch).staged.Keys
    ensures forall i :: i in s.uploaded ==> i in Receive(hash, s, ch).uploaded
  {
    ArrayRemoveElements(s.uploaded, ch.index);
    assert ch.index !in ArrayRemove(s.uploaded, ch.index);
  }

  /** The indices 0, ..., n-1. */
  function Range(n: nat): (r: set<int>)
    ensures |r| == n && forall i :: i in r <==> 0 <= i < n
  {
    if n == 0 then {} else Range(n - 1) + {n - 1}
  }

  function Elements(s: seq<int>): set<int> {
    if s == [] then {} else Elements(s[..|s| - 1]) + {s[|s| - 1]}
  }

  lemma {:induction false} ElementsOf(s: seq<int>, x: int)
    ensures x in Elements(s) <==> x in s
  {
    if s != [] {
      ElementsOf(s[..|s| - 1], x);
      assert x in s <==> x in s[..|s| - 1] || x == s[|s| - 1];
    }
  }

  lemma {:induction false} ElementsSize(s: seq<int>)
    requires NoDuplicates(s)
    ensures |Elements(s)| == |s|
  {
    if s != [] {
      ElementsSize(s[..|s| - 1]);
      ElementsOf(s[..|s| - 1], s[|s| - 1]);
    }
  }

  lemma SubsetOfSameSize(a: set<int>, b: set<int>)
    requires a <= b && |a| == |b|
    ensures a == b
  {
    var rest := b - a;
    assert b == a + rest;
    assert |rest| == 0;
    assert rest == {};
  }

  lemma ListedInRange(s: Session)
    requires SessionOk(s)
    ensures |Elements(s.uploaded)| == |s.uploaded| && Elements(s.uploaded) <= Range(s.total)
  {
    ElementsSize(s.uploaded);
    forall x | x in Elements(s.uploaded) ensures x in Range(s.total) {
      ElementsOf(s.uploaded, x);
    }
  }

  lemma CompleteListsAll(s: Session)
    requires Complete(s)
    ensures Range(s.total) <= Elements(s.uploaded)
  {
    forall i | i in Range(s.total) ensures i in Elements(s.uploaded) {
      ElementsOf(s.uploaded, i);
    }
  }

  /** Counting the list is enough: at full length it is a permutation of 0, ..., total-1. */
  lemma FullListIsComplete(s: Session)
    requires SessionOk(s)
    ensures |s.uploaded| == s.total <==> Complete(s)
  {
    var es, all := Elements(s.uploaded), Range(s.total);
    ListedInRange(s);
    hide Elements, Range;
    if |s.uploaded| == s.total {
      SubsetOfSameSize(es, all);
      forall i | 0 <= i < s.total ensures i in s.uploaded && i in s.staged {
        assert i in all;
        ElementsOf(s.uploaded, i);
      }
    }
    if Complete(s) {
      CompleteListsAll(s);
      assert es == all;
    }
  }

  // ----- round trip -----

  /** The slice of the file that chunk i carries. */
  function Slice(file: Bytes, chunk: nat, i: nat): Bytes
    requires chunk > 0 && i < TotalChunks(|file|, chunk)
  {
    SliceInRange(|file|, chunk, i);
    var end := (i + 1) * chunk;
    file[i * chunk .. if end < |file| then end else |file|]
  }

  lemma SliceInRange(size: nat, chunk: nat, i: nat)
    requires chunk > 0 && i < TotalChunks(size, chunk)
    ensures 0 <= i * chunk < size && i * chunk < (i + 1) * chunk
    ensures i + 1 == TotalChunks(size, chunk) ==> size <= (i + 1) * chunk
    ensures i + 1 < TotalChunks(size, chunk) ==> (i + 1) * chunk < size
  {
    var n := TotalChunks(size, chunk);
    assert n * chunk <= size + chunk - 1 < n * chunk + chunk;
    assert (i + 1) * chunk <= n * chunk by { MulMono(i + 1, n, chunk); }
    if i + 1 < n {
      assert (i + 2) * chunk <= n * chunk by { MulMono(i + 2, n, chunk); }
    }
  }

  lemma MulMono(a: nat, b: nat, c: nat)
    requires a <= b
    ensures a * c <= b * c
  {
  }

  function Reached(size: nat, chunk: nat, n: nat): (r: nat)
    ensures r <= size
  {
    if n * chunk < size then n * chunk else size
  }

  lemma SliceAt(file: Bytes, chunk: nat, i: nat)
    requires chunk > 0 && i < TotalChunks(|file|, chunk)
    ensures Reached(|file|, chunk, i) <= Reached(|file|, chunk, i + 1)
    ensures Slice(file, chunk, i) == file[Reached(|file|, chunk, i)..Reached(|file|, chunk, i + 1)]
  {
    SliceInRange(|file|, chunk, i);
  }

  /** Chunk file i is the i-th slice of the file. */
  predicate HoldsSlice(file: Bytes, chunk: nat, staged: map<int, Bytes>, i: nat)
    requires chunk > 0
  {
    i in staged && i < TotalChunks(|file|, chunk) && staged[i] == Slice(file, chunk, i)
  }

  /** Joining the first n slices gives the file up to byte n * chunk, or all of it. */
  lemma {:induction false} JoinedSlices(file: Bytes, chunk: nat, staged: map<int, Bytes>, n: nat)
    requires chunk > 0 && forall i: nat :: i < n ==> i in staged && HoldsSlice(file, chunk, staged, i)
    ensures Joined(staged, n) == file[..Reached(|file|, chunk, n)]
  {
    if n > 0 {
      assert HoldsSlice(file, chunk, staged, n - 1);
      SliceAt(file, chunk, n - 1);
      hide HoldsSlice, TotalChunks, Reached, Slice;
      JoinedSlices(file, chunk, staged, n - 1);
      var lo, hi := Reached(|file|, chunk, n - 1), Reached(|file|, chunk, n);
      assert file[..lo] + file[lo..hi] == file[..hi];
    }
  }

  lemma AllReached(size: nat, chunk: nat)
    requires chunk > 0
    ensures Reached(size, chunk, TotalChunks(size, chunk)) == size
  {
    var n := TotalChunks(size, chunk);
    if n > 0 {
      SliceInRange(size, chunk, n - 1);
    }
  }

  /** Whatever this chunk leaves in its file is the right slice. */
  predicate Carries(file: Bytes, ch: Chunk) {
    0 <= ch.index < TotalChunks(|file|, CHUNK_SIZE) && !ch.fault.DiskLeft? ==>
      ch.body == Slice(file, CHUNK_SIZE, ch.index)
  }

  ghost predicate StagesOnly(file: Bytes, s: Session) {
    forall i :: i in s.staged ==> 0 <= i < TotalChunks(|file|, CHUNK_SIZE) && s.staged[i] == Slice(file, CHUNK_SIZE, i)
  }

  lemma {:induction false} StagedSlices(hash: Bytes -> Digest, file: Bytes, s: Session, chs: seq<Chunk>)
    requires SessionOk(s) && s.total == TotalChunks(|file|, CHUNK_SIZE) && StagesOnly(file, s)
    requires forall i :: 0 <= i < |chs| ==> Carries(file, chs[i]) && !chs[i].fault.DiskLeft?
    ensures var s' := ReceiveAll(hash, s, chs);
            SessionOk(s') && s'.total == s.total && StagesOnly(file, s')
  {
    if chs != [] {
      StagedSlices(hash, file, s, chs[..|chs| - 1]);
      ReceiveOk(hash, ReceiveAll(hash, s, chs[..|chs| - 1]), chs[|chs| - 1]);
    }
  }

  /** The requests carry slices of one file, for a session opened for it; no disk write was cut short. */
  ghost predicate Uploads(file: Bytes, start: Session, chs: seq<Chunk>) {
    && start.total == TotalChunks(|file|, CHUNK_SIZE) && start.uploaded == [] && start.staged == map[]
    && forall i :: 0 <= i < |chs| ==> Carries(file, chs[i]) && !chs[i].fault.DiskLeft?
  }

  /**
  Round trip: for any order and repetition of chunk uploads that carry slices of
  a file, a complete list assembles to exactly that file.
  */
  lemma UploadRoundTrip(hash: Bytes -> Digest, file: Bytes, start: Session, chs: seq<Chunk>)
    requires Uploads(file, start, chs)
    ensures var s := ReceiveAll(hash, start, chs);
            |s.uploaded| == s.total ==> Complete(s) && Joined(s.staged, s.total) == file
  {
    StagedSlices(hash, file, start, chs);
    var s := ReceiveAll(hash, start, chs);
    if |s.uploaded| == s.total {
      FullListIsComplete(s);
      JoinedSlices(file, CHUNK_SIZE, s.staged, s.total);
      AllReached(|file|, CHUNK_SIZE);
    }
  }

  // ----- the latest bytes win -----

  /** What the last chunk request that reached the disk left for index i. */
  function Latest(hash: Bytes -> Digest, s: Session, chs: seq<Chunk>, i: int): Option<Bytes> {
    if chs == [] then (if i in s.staged then Some(s.staged[i]) else None)
    else
      var init, ch := chs[..|chs| - 1], chs[|chs| - 1];
      if ch.index == i && Accepted(hash, ReceiveAll(hash, s, init), ch) && !ch.fault.DiskKept?
      then Some(if ch.fault.DiskLeft? then ch.fault.bytes else ch.body)
      else Latest(hash, s, init, i)
  }

  /** After any requests, in any order: the staged bytes are the latest ones, and the list stays well formed. */
  lemma {:induction false} StagedIsLatest(hash: Bytes -> Digest, s: Session, chs: seq<Chunk>, i: int)
    requires SessionOk(s)
    ensures var s' := ReceiveAll(hash, s, chs);
            && SessionOk(s') && s'.total == s.total
            && Latest(hash, s, chs, i) == if i in s'.staged then Some(s'.staged[i]) else None
  {
    if chs != [] {
      StagedIsLatest(hash, s, chs[..|chs| - 1], i);
      ReceiveOk(hash, ReceiveAll(hash, s, chs[..|chs| - 1]), chs[|chs| - 1]);
    }
  }

  /** The latest bytes of chunks 0, ..., n-1 in index order. */
  function LatestJoined(hash: Bytes -> Digest, s: Session, chs: seq<Chunk>, n: nat): Bytes {
    if n == 0 then []
    else
      var last := Latest(hash, s, chs, n - 1);
      LatestJoined(hash, s, chs, n - 1) + if last.Some? then last.value else []
  }

  lemma {:induction false} JoinedIsLatest(hash: Bytes -> Digest, s: Session, chs: seq<Chunk>, n: nat)
    requires SessionOk(s) && forall i :: 0 <= i < n ==> i in ReceiveAll(hash, s, chs).staged
    ensures Joined(ReceiveAll(hash, s, chs).staged, n) == LatestJoined(hash, s, chs, n)
  {
    hide ReceiveAll, Latest;
    if n > 0 {
      JoinedIsLatest(hash, s, chs, n - 1);
      StagedIsLatest(hash, s, chs, n - 1);
    }
  }

  /** What a completion stores, told from the requests alone. */
  lemma CompletionStores(hash: Bytes -> Digest, start: Session, chs: seq<Chunk>)
    requires SessionOk(start) && Complete(ReceiveAll(hash, start, chs))
    ensures var s := ReceiveAll(hash, start, chs);
            && Joined(s.staged, s.total) == LatestJoined(hash, start, chs, start.total)
            && forall file :: Uploads(file, start, chs) ==> Joined(s.staged, s.total) == file
  {
    var s := ReceiveAll(hash, start, chs);
    StagedIsLatest(hash, start, chs, 0);
    FullListIsComplete(s);
    JoinedIsLatest(hash, start, chs, s.total);
    hide ReceiveAll, Uploads, Latest, LatestJoined;
    forall file | Uploads(file, start, chs) ensures Joined(s.staged, s.total) == file {
      UploadRoundTrip(hash, file, start, chs);
    }
  }

  /** A request left `bytes` for index i: its own body, of a size and digest that passed, or a cut-short write. */
  ghost predicate LeftBy(hash: Bytes -> Digest, ch: Chunk, i: int, total: nat, bytes: Bytes) {
    && ch.index == i && 0 <= i < total
    && |ch.body| <= 5 * 1024 * 1024 + 1 && (ch.claimed.Some? ==> hash(ch.body) == ch.claimed.value)
    && (bytes == ch.body || ch.fault == DiskLeft(bytes))
  }

  /** After any requests, whatever is staged was checked: a body whose digest was claimed has that digest. */
  lemma {:induction false} StagedWasChecked(hash: Bytes -> Digest, s: Session, chs: seq<Chunk>, i: int) returns (k: nat)
    requires s.staged == map[] && i in ReceiveAll(hash, s, chs).staged
    ensures k < |chs| && LeftBy(hash, chs[k], i, s.total, ReceiveAll(hash, s, chs).staged[i])
    ensures ReceiveAll(hash, s, chs).total == s.total
  {
    var init, ch := chs[..|chs| - 1], chs[|chs| - 1];
    TotalKept(hash, s, chs);
    TotalKept(hash, s, init);
    var before, after := ReceiveAll(hash, s, init), ReceiveAll(hash, s, chs);
    if ch.index == i && Accepted(hash, before, ch) && !ch.fault.DiskKept? {
      k := |chs| - 1;
    } else {
      k := StagedWasChecked(hash, s, init, i);
    }
  }

  lemma {:induction false} TotalKept(hash: Bytes -> Digest, s: Session, chs: seq<Chunk>)
    ensures ReceiveAll(hash, s, chs).total == s.total
  {
    if chs != [] {
      TotalKept(hash, s, chs[..|chs| - 1]);
    }
  }

  /** Request k passed its checks and was written to disk and row. */
  ghost predicate Recorded(hash: Bytes -> Digest, s: Session, chs: seq<Chunk>, k: nat)
    requires k < |chs|
  {
    Accepted(hash, ReceiveAll(hash, s, chs[..k]), chs[k]) && chs[k].fault.NoFault?
  }

  /** A chunk is listed exactly if it was before, or some request for it was recorded. */
  lemma {:induction false} ListedExactly(hash: Bytes -> Digest, s: Session, chs: seq<Chunk>, i: int)
    requires SessionOk(s)
    ensures SessionOk(ReceiveAll(hash, s, chs))
    ensures i in ReceiveAll(hash, s, chs).uploaded <==>
            i in s.uploaded || exists k :: 0 <= k < |chs| && chs[k].index == i && Recorded(hash, s, chs, k)
  {
    if chs != [] {
      var init, ch := chs[..|chs| - 1], chs[|chs| - 1];
      ListedExactly(hash, s, init, i);
      ArrayRemoveElements(ReceiveAll(hash, s, init).uploaded, ch.index);
      ReceiveOk(hash, ReceiveAll(hash, s, init), ch);
      forall k | 0 <= k < |init| ensures Recorded(hash, s, chs, k) <==> Recorded(hash, s, init, k) {
        assert chs[..k] == init[..k];
      }
      assert chs[..|chs| - 1] == init;
      if ch.index == i && Recorded(hash, s, chs, |chs| - 1) {
        assert i in ReceiveAll(hash, s, chs).uploaded;
      } else if k :| 0 <= k < |chs| && chs[k].index == i && Recorded(hash, s, chs, k) {
        assert Recorded(hash, s, init, k);
        assert init[k].index == i;
      }
      if k :| 0 <= k < |init| && init[k].index == i && Recorded(hash, s, init, k) {
        assert chs[k].index == i && Recorded(hash, s, chs, k);
      }
    }
  }
}
