/**
 The spool as it works: a file appended to page by page through a chunking, encrypting writer, with
 every I/O, encryption or quota step free to fail, rollback of a page that failed, and reading back.
 */
module Spool {

  import opened Octets
  import opened Options
  import opened SpoolFormat
  import Q = SpoolQuota

  const MAX_STREAM_RESULT_SPOOL_PAGES := 4096

  datatype PageLocation = PageLocation(offset: nat, chunks: nat, firstNonce: nat)

  /** Page `page` lies in the file where its location says, under nonces already spent. */
  ghost predicate Stored(c: Cipher, data: seq<Byte>, nextNonce: nat, page: nat, loc: PageLocation,
                         chunks: seq<seq<Byte>>) {
    && loc.chunks == |chunks| > 0 && ChunksFit(chunks)
    && loc.firstNonce + |chunks| <= nextNonce <= U64_MAX
    && FramesAt(c, data, loc.offset, page, loc.firstNonce, chunks)
  }

  ghost predicate AllStored(c: Cipher, data: seq<Byte>, nextNonce: nat, pages: seq<PageLocation>,
                            chunks: seq<seq<seq<Byte>>>) {
    && |pages| == |chunks| <= MAX_STREAM_RESULT_SPOOL_PAGES
    && (forall i | 0 <= i < |pages| :: Stored(c, data, nextNonce, i, pages[i], chunks[i]))
    && (forall i, j | 0 <= i < j < |pages| :: pages[i].firstNonce + pages[i].chunks <= pages[j].firstNonce)
  }

  /** Appending to the file and spending nonces disturbs no stored page. */
  lemma {:induction false} GrowthKeepsPages(c: Cipher, data: seq<Byte>, data': seq<Byte>, n: nat, n': nat,
                                            pages: seq<PageLocation>, chunks: seq<seq<seq<Byte>>>)
    requires AllStored(c, data, n, pages, chunks) && data <= data' && n <= n' <= U64_MAX
    ensures AllStored(c, data', n', pages, chunks)
  {
    forall i | 0 <= i < |pages| ensures Stored(c, data', n', i, pages[i], chunks[i]) {
      assert Stored(c, data, n, i, pages[i], chunks[i]);
      var end := pages[i].offset + |Frames(c, i, pages[i].firstNonce, chunks[i])|;
      assert data'[pages[i].offset..end] == data[pages[i].offset..end];
    }
  }

  /** What can go wrong while a page is written. */
  predicate PageError(e: SpoolError) {
    e == Encryption || e == QuotaExceeded || e == Io || e == Decode || e == InvalidFrame
  }

  /** Strictly increasing, so no number was used twice. */
  ghost predicate Spent(used: seq<nat>, nextNonce: nat) {
    && (forall i, j | 0 <= i < j < |used| :: used[i] < used[j])
    && (forall i | 0 <= i < |used| :: used[i] < nextNonce)
  }

  // ---------- the account with the shared quota ----------

  /** These moves leave a page in progress with `reserved` bytes charged and `length` bytes in the file. */
  ghost predicate Charged(moves: seq<Q.Move>, length: nat, held: nat, offset: nat, reserved: nat) {
    match Q.Replay(moves)
    case None => false
    case Some(account) =>
      && account.length == length && account.held == held && account.phase.Page?
      && account.phase.offset == offset && account.phase.reserved == reserved
      && (account.phase.work.Between? || account.phase.work.Writing? || account.phase.work.Failed?)
  }

  /** No frame is half written and none was refused. */
  ghost predicate BetweenFrames(moves: seq<Q.Move>) {
    match Q.Replay(moves)
    case None => false
    case Some(account) => account.phase.Page? && account.phase.work.Between?
  }

  lemma {:induction false} BeginMoves(moves: seq<Q.Move>, length: nat, held: nat)
    requires Q.Replay(moves) == Some(Q.Account(length, held, Q.Ready))
    ensures Charged(moves + [Q.Began], length, held, length, 0) && BetweenFrames(moves + [Q.Began])
  {
    Q.ReplayOne(moves, Q.Began);
  }

  /** Inside a frame of which `left` bytes are still to be written. */
  ghost predicate InFrame(moves: seq<Q.Move>, length: nat, held: nat, offset: nat, reserved: nat, left: nat) {
    Q.Replay(moves) == Some(Q.Account(length, held, Q.Page(offset, reserved, Q.Writing(left))))
  }

  lemma {:induction false} TookMoves(moves: seq<Q.Move>, length: nat, held: nat, offset: nat, reserved: nat, n: nat)
    requires Charged(moves, length, held, offset, reserved) && BetweenFrames(moves)
    ensures InFrame(moves + [Q.Took(n)], length, held, offset, reserved + n, n)
  {
    Q.ReplayOne(moves, Q.Took(n));
  }

  lemma {:induction false} WroteMoves(moves: seq<Q.Move>, length: nat, held: nat, offset: nat, reserved: nat, left: nat,
                                      n: nat)
    requires InFrame(moves, length, held, offset, reserved, left) && n <= left
    ensures InFrame(moves + [Q.Wrote(n)], length + n, held, offset, reserved, left - n)
  {
    Q.ReplayOne(moves, Q.Wrote(n));
  }

  lemma {:induction false} FramedMoves(moves: seq<Q.Move>, length: nat, held: nat, offset: nat, reserved: nat,
                                       left: nat)
    requires InFrame(moves, length, held, offset, reserved, left)
    ensures Charged(moves, length, held, offset, reserved)
    ensures left == 0 ==>
              Charged(moves + [Q.Framed], length, held, offset, reserved) && BetweenFrames(moves + [Q.Framed])
  {
    Q.ReplayOne(moves, Q.Framed);
  }

  lemma {:induction false} RefusedMoves(moves: seq<Q.Move>, length: nat, held: nat, offset: nat, reserved: nat)
    requires Charged(moves, length, held, offset, reserved) && BetweenFrames(moves)
    ensures Charged(moves + [Q.Refused], length, held, offset, reserved)
  {
    Q.ReplayOne(moves, Q.Refused);
  }

  lemma {:induction false} KeptMoves(moves: seq<Q.Move>, length: nat, held: nat, offset: nat, reserved: nat)
    requires Charged(moves, length, held, offset, reserved) && BetweenFrames(moves)
    ensures Q.Replay(moves + [Q.Kept]) == Some(Q.Account(length, held + reserved, Q.Ready))
  {
    Q.ReplayOne(moves, Q.Kept);
  }

  /** Giving a page up, unless its reservation was refused already. */
  ghost function Broken(moves: seq<Q.Move>): seq<Q.Move> {
    match Q.Replay(moves)
    case None => moves
    case Some(account) => if Q.CanMove(account, Q.Broke) then moves + [Q.Broke] else moves
  }

  lemma {:induction false} RollbackMoves(moves: seq<Q.Move>, length: nat, held: nat, offset: nat, reserved: nat)
    requires Charged(moves, length, held, offset, reserved)
    ensures Q.Replay(Broken(moves) + [Q.Cut(true)] + [Q.GaveBack]) == Some(Q.Account(offset, held, Q.Ready))
    ensures Q.Replay(Broken(moves) + [Q.Cut(false)]) == Some(Q.Account(length, held + reserved, Q.Ready))
  {
    hide Q.Replay;
    Q.ReplayOne(moves, Q.Broke);
    Q.ReplayOne(Broken(moves), Q.Cut(false));
    Q.ReplayOne(Broken(moves), Q.Cut(true));
    Q.ReplayOne(Broken(moves) + [Q.Cut(true)], Q.GaveBack);
  }

  // ---------- the file ----------

  class SpoolFile {
    const cipher: Cipher
    var data: seq<Byte>
    var pages: seq<PageLocation>
    var nextNonce: nat
    var held: nat
    /** The chunks of each stored page, and the sequence numbers given to the cipher so far. */
    ghost var chunks: seq<seq<seq<Byte>>>
    ghost var used: seq<nat>
    /** What this spool did to its account with the shared quota. */
    ghost var moves: seq<Q.Move>

    ghost predicate NoncesFresh()
      reads this
    {
      nextNonce <= U64_MAX && Spent(used, nextNonce)
    }

    ghost predicate Valid()
      reads this
    {
      && NoncesFresh()
      && AllStored(cipher, data, nextNonce, pages, chunks)
      && |data| <= held
      && Q.Replay(moves) == Some(Q.Account(|data|, held, Q.Ready))
    }

    /** The payload of every stored page. */
    ghost function Contents(): seq<seq<Byte>>
      reads this
    {
      seq(|chunks|, i requires 0 <= i < |chunks| reads this => Joined(chunks[i]))
    }

    constructor (cipher: Cipher)
      ensures Valid() && this.cipher == cipher && Contents() == [] && pages == [] && held == 0
      ensures used == [] && moves == []
    {
      this.cipher := cipher;
      data, pages, nextNonce, held, chunks, used, moves := [], [], 0, 0, [], [], [];
    }

    /** `write_all`: everything, or some prefix and an error. */
    method WriteAll(bytes: seq<Byte>, ghost offset: nat, ghost reserved: nat, ghost left: nat) returns (ok: bool)
      requires InFrame(moves, |data|, held, offset, reserved, left) && |bytes| <= left
      modifies this`data, this`moves
      ensures ok ==> data == old(data) + bytes
      ensures old(data) <= data && |data| <= |old(data)| + |bytes|
      ensures InFrame(moves, |data|, held, offset, reserved, left - (|data| - |old(data)|)) && old(moves) <= moves
    {
      hide InFrame;
      ok := *;
      var n :| 0 <= n <= |bytes|;
      var taken := if ok then bytes else bytes[..n];
      WroteMoves(moves, |data|, held, offset, reserved, left, |taken|);
      data, moves := data + taken, moves + [Q.Wrote(|taken|)];
    }

    /** The frame piece by piece; after each piece the account says what the file holds. */
    method WriteFrame(page: nat, sequence: nat, plainLength: nat, sealed: seq<Byte>, ghost offset: nat,
                      ghost reserved: nat) returns (ok: bool)
      requires InFrame(moves, |data|, held, offset, reserved, FRAME_HEADER_BYTES + |sealed|)
      modifies this`data, this`moves
      ensures ok ==> data == old(data) + (Header(page, sequence, plainLength, |sealed|) + sealed)
      ensures old(data) <= data && |data| <= |old(data)| + FRAME_HEADER_BYTES + |sealed| && old(moves) <= moves
      ensures InFrame(moves, |data|, held, offset, reserved,
                      FRAME_HEADER_BYTES + |sealed| - (|data| - |old(data)|))
    {
      hide InFrame; hide BigEndian;
      ghost var left := FRAME_HEADER_BYTES + |sealed|;
      ok := WriteAll([FRAME_VERSION], offset, reserved, left);
      if !ok { return; }
      ok := WriteAll(BigEndian(page, 8), offset, reserved, left - 1);
      if !ok { return; }
      ok := WriteAll(BigEndian(sequence, 8), offset, reserved, left - 9);
      if !ok { return; }
      ok := WriteAll(BigEndian(plainLength, 4), offset, reserved, left - 17);
      if !ok { return; }
      ok := WriteAll(BigEndian(|sealed|, 4), offset, reserved, left - 21);
      if !ok { return; }
      ok := WriteAll(sealed, offset, reserved, left - 25);
    }

    /**
     One chunk: a fresh nonce is spent first, then sealing, the quota and the write may each fail.
     `charged` is what the quota was charged.
     */
    method WritePayloadChunk(page: nat, text: seq<Byte>, ghost offset: nat, ghost reserved: nat)
      returns (error: Option<SpoolError>, charged: nat, ghost faulted: bool)
      requires NoncesFresh() && Lawful(cipher)
      requires Charged(moves, |data|, held, offset, reserved) && BetweenFrames(moves)
      modifies this`data, this`nextNonce, this`used, this`moves
      ensures NoncesFresh() && old(nextNonce) <= nextNonce && old(moves) <= moves
      ensures used == old(used) || used == old(used) + [old(nextNonce)]
      ensures old(data) <= data && |data| <= |old(data)| + charged
      ensures Charged(moves, |data|, held, offset, reserved + charged)
      ensures error == None ==> BetweenFrames(moves)
      ensures error == None ==>
                && data == old(data) + Frame(cipher, page, old(nextNonce), text)
                && nextNonce == old(nextNonce) + 1 && used == old(used) + [old(nextNonce)]
                && charged == FRAME_HEADER_BYTES + AUTH_TAG_BYTES + |text|
      ensures error == Some(InvalidFrame) <==> old(nextNonce) == U64_MAX
      ensures error.Some? ==> PageError(error.value)
      ensures faulted <==> error.Some? && error != Some(InvalidFrame)
      ensures nextNonce <= old(nextNonce) + 1 && (error == Some(InvalidFrame) ==> nextNonce == old(nextNonce))
    {
      hide Charged; hide BetweenFrames; hide InFrame;
      charged, faulted := 0, false;
      var sequence := nextNonce;
      if nextNonce == U64_MAX {
        return Some(InvalidFrame), 0, false;
      }
      nextNonce := nextNonce + 1;
      used := used + [sequence];
      var sealed := Sealed(cipher, page, sequence, text);
      if * {
        return Some(Encryption), 0, true;
      }
      if * {
        RefusedMoves(moves, |data|, held, offset, reserved);
        moves := moves + [Q.Refused];
        return Some(QuotaExceeded), 0, true;
      }
      charged := FRAME_HEADER_BYTES + |sealed|;
      TookMoves(moves, |data|, held, offset, reserved, charged);
      moves := moves + [Q.Took(charged)];
      ghost var length := |data|;
      var ok := WriteFrame(page, sequence, |text|, sealed, offset, reserved + charged);
      FramedMoves(moves, |data|, held, offset, reserved + charged, charged - (|data| - length));
      moves := if ok then moves + [Q.Framed] else moves;
      error, faulted := if ok then None else Some(Io), !ok;
    }
  }

  lemma {:induction false} FramesSnoc(c: Cipher, page: nat, first: nat, chunks: seq<seq<Byte>>, text: seq<Byte>)
    ensures Frames(c, page, first, chunks + [text]) == Frames(c, page, first, chunks)
            + Frame(c, page, first + |chunks|, text)
    ensures Joined(chunks + [text]) == Joined(chunks) + text
    ensures ChunksFit(chunks) && |text| <= ENCRYPTION_CHUNK_BYTES ==> ChunksFit(chunks + [text])
  {
    assert (chunks + [text])[..|chunks|] == chunks;
  }

  /** What the serializer does to the writer it is given. */
  datatype Event = Put(bytes: seq<Byte>) | Sync

  /** The bytes a serializer puts, whatever slices it puts them in. */
  function Payload(events: seq<Event>): seq<Byte> {
    if events == [] then []
    else
      var n := |events| - 1;
      Payload(events[..n]) + (if events[n].Put? then events[n].bytes else [])
  }

  lemma {:induction false} Grown(before: seq<Byte>, bytes: seq<Byte>, taken: nat, length: nat)
    requires taken + length <= |bytes|
    ensures before + bytes[..taken] + bytes[taken..taken + length] == before + bytes[..taken + length]
  {}

  class PageWriter {
    const spool: SpoolFile
    const page: nat
    var buffer: seq<Byte>
    var chunks: nat
    var reserved: nat
    var failure: Option<SpoolError>
    /** The file and the nonce counter when the page began, and the chunks written since. */
    ghost const base: seq<Byte>
    ghost const first: nat
    ghost var written: seq<seq<Byte>>
    /** The bytes offered so far, and whether disk, cipher, quota or serializer ever failed. */
    ghost var offered: nat
    ghost var faulted: bool

    /** What holds even after a chunk failed: the file only grew, and no more than was charged. */
    ghost predicate Safe()
      reads this, spool
    {
      && Lawful(spool.cipher) && spool.NoncesFresh() && first <= spool.nextNonce
      && base <= spool.data && |spool.data| <= |base| + reserved
      && |buffer| <= ENCRYPTION_CHUNK_BYTES && ChunksFit(written)
      && Charged(spool.moves, |spool.data|, spool.held, |base|, reserved)
      && spool.nextNonce <= first + offered
    }

    ghost predicate Sound()
      reads this, spool
    {
      && Safe() && chunks == |written| <= U32_MAX && spool.nextNonce == first + |written|
      && spool.data == base + Frames(spool.cipher, page, first, written) && BetweenFrames(spool.moves)
      && spool.nextNonce + |buffer| <= first + offered
    }

    ghost predicate Valid()
      reads this, spool
    {
      && Safe()
      && (failure.Some? && failure != Some(InvalidFrame) ==> faulted)
      && (failure == None ==> Sound() && |buffer| < ENCRYPTION_CHUNK_BYTES)
      && (failure.Some? ==> PageError(failure.value))
      && (failure == Some(InvalidFrame) ==> spool.nextNonce == U64_MAX || spool.nextNonce >= first + U32_MAX)
    }

    /** Everything accepted so far. */
    ghost function Accepted(): seq<Byte>
      reads this
    {
      Joined(written) + buffer
    }

    constructor (spool: SpoolFile, page: nat)
      requires spool.NoncesFresh() && Lawful(spool.cipher)
      requires Charged(spool.moves, |spool.data|, spool.held, |spool.data|, 0) && BetweenFrames(spool.moves)
      ensures Valid() && failure == None && this.spool == spool && this.page == page
      ensures base == spool.data && first == spool.nextNonce && reserved == 0 && Accepted() == []
      ensures offered == 0 && !faulted
    {
      this.spool, this.page, buffer, chunks, reserved, failure := spool, page, [], 0, 0, None;
      base, first, written, offered, faulted := spool.data, spool.nextNonce, [], 0, false;
    }

    /** Writes the buffer as one chunk. The caller records an error. */
    method WriteBuffer() returns (error: Option<SpoolError>)
      requires Sound()
      modifies this`buffer, this`chunks, this`reserved, this`written, this`faulted
      modifies spool`data, spool`nextNonce, spool`used, spool`moves
      ensures Safe() && old(spool.used) <= spool.used && old(spool.moves) <= spool.moves && reserved >= old(reserved)
      ensures error == None ==> Sound() && buffer == [] && Accepted() == old(Accepted()) && faulted == old(faulted)
      ensures error.Some? && error != Some(InvalidFrame) ==> faulted
      ensures old(faulted) ==> faulted
      ensures error == Some(InvalidFrame) ==> faulted == old(faulted)
      ensures error == Some(InvalidFrame) ==> spool.nextNonce == U64_MAX || spool.nextNonce >= first + U32_MAX
      ensures error.Some? ==> PageError(error.value)
    {
      hide Frame; hide Frames; hide Joined; hide ChunksFit; hide Lawful; hide Spent; hide Charged; hide BetweenFrames;
      if buffer == [] {
        return None;
      }
      FramesSnoc(spool.cipher, page, first, written, buffer);
      var charged;
      ghost var failed;
      error, charged, failed := spool.WritePayloadChunk(page, buffer, |base|, reserved);
      reserved := reserved + charged;
      if error != None {
        faulted := faulted || failed;
        return;
      }
      if chunks == U32_MAX {
        buffer := [];
        return Some(InvalidFrame);
      }
      written := written + [buffer];
      buffer := [];
      chunks := chunks + 1;
    }

    /** Accepts bytes, cutting a chunk whenever the buffer is full. `None` is an I/O error. */
    method Write(bytes: seq<Byte>) returns (accepted: Option<nat>)
      requires Valid()
      modifies this`buffer, this`chunks, this`reserved, this`written, this`failure
      modifies this`offered, this`faulted
      modifies spool`data, spool`nextNonce, spool`used, spool`moves
      ensures Valid() && old(spool.used) <= spool.used && old(spool.moves) <= spool.moves && reserved >= old(reserved)
      ensures old(failure) != None ==> failure == old(failure) && accepted == None
      ensures failure == None ==> accepted == Some(|bytes|) && Accepted() == old(Accepted()) + bytes
      ensures accepted.Some? ==> accepted.value <= |bytes| && (accepted.value == 0 ==> bytes == [])
      ensures offered == old(offered) + if accepted.Some? then accepted.value else 0
      ensures accepted.None? ==> old(failure).Some?
      ensures old(faulted) ==> faulted
    {
      hide Frame; hide Frames; hide Joined; hide ChunksFit; hide Lawful; hide Spent; hide Charged; hide BetweenFrames;
      if failure != None {
        return None;
      }
      var taken := 0;
      while taken < |bytes|
        invariant 0 <= taken <= |bytes| && failure == None && Sound() && |buffer| < ENCRYPTION_CHUNK_BYTES
        invariant Accepted() == old(Accepted()) + bytes[..taken] && offered == old(offered) + taken
        invariant faulted == old(faulted)
        invariant old(spool.used) <= spool.used && old(spool.moves) <= spool.moves && reserved >= old(reserved)
      {
        var capacity := ENCRYPTION_CHUNK_BYTES - |buffer|;
        var length := if capacity < |bytes| - taken then capacity else |bytes| - taken;
        ghost var before, part := Accepted(), bytes[taken..taken + length];
        buffer := buffer + bytes[taken..taken + length];
        offered := offered + length;
        assert Accepted() == before + part;
        Grown(old(Accepted()), bytes, taken, length);
        taken := taken + length;
        if |buffer| == ENCRYPTION_CHUNK_BYTES {
          var error := WriteBuffer();
          if error != None {
            failure := error;
            return Some(taken);
          }
        }
      }
      assert bytes[..taken] == bytes;
      accepted := Some(taken);
    }

    /** The serializer's flush: the partial buffer becomes a short chunk. */
    method Flush() returns (ok: bool)
      requires Valid()
      modifies this`buffer, this`chunks, this`reserved, this`written, this`failure
      modifies this`offered, this`faulted
      modifies spool`data, spool`nextNonce, spool`used, spool`moves
      ensures Valid() && old(spool.used) <= spool.used && old(spool.moves) <= spool.moves && reserved >= old(reserved)
      ensures old(failure) != None ==> failure == old(failure)
      ensures ok <==> failure == None
      ensures ok ==> Accepted() == old(Accepted()) && buffer == [] && faulted == old(faulted)
      ensures offered == old(offered) && (old(faulted) ==> faulted)
    {
      hide Frame; hide Frames; hide Joined; hide ChunksFit; hide Lawful; hide Spent; hide Charged; hide BetweenFrames;
      if failure != None {
        return false;
      }
      var error := WriteBuffer();
      if error != None {
        failure := error;
        return false;
      }
      if * {
        failure, faulted := Some(Io), true;
        return false;
      }
      ok := true;
    }

    /** `write_all` of one slice: retries what was not accepted, as the serializer does. */
    method PutAll(bytes: seq<Byte>) returns (ok: bool)
      requires Valid()
      modifies this`buffer, this`chunks, this`reserved, this`written, this`failure
      modifies this`offered, this`faulted
      modifies spool`data, spool`nextNonce, spool`used, spool`moves
      ensures Valid() && old(spool.used) <= spool.used && old(spool.moves) <= spool.moves
      ensures ok && failure == None ==> Accepted() == old(Accepted()) + bytes
      ensures !ok ==> failure != None
      ensures old(failure) != None ==> failure == old(failure)
      ensures offered <= old(offered) + |bytes| && (old(faulted) ==> faulted)
    {
      hide Frame; hide Frames; hide Joined; hide ChunksFit; hide Lawful; hide Spent; hide Charged;
      hide BetweenFrames; hide Safe;
      var rest := bytes;
      while rest != []
        invariant Valid() && old(spool.used) <= spool.used && old(spool.moves) <= spool.moves
        invariant old(failure) != None ==> failure == old(failure)
        invariant failure == None ==> old(failure) == None && Accepted() + rest == old(Accepted()) + bytes
        invariant offered + |rest| <= old(offered) + |bytes| && (old(faulted) ==> faulted)
        decreases |rest|
      {
        var accepted := Write(rest);
        if accepted == None {
          return false;
        }
        rest := rest[accepted.value..];
      }
      ok := true;
    }
  }

  lemma {:induction false} PayloadGrows(events: seq<Event>, i: nat)
    requires i <= |events|
    ensures |Payload(events[..i])| <= |Payload(events)|
  {
    if i == |events| {
      assert events[..i] == events;
    } else {
      var init := events[..|events| - 1];
      assert init[..i] == events[..i];
      PayloadGrows(init, i);
    }
  }

  /**
   Runs a serializer over the writer; it may also give up on its own. `Ok` with no recorded failure
   means the writer accepted exactly the payload.
   */
  method Serialize(writer: PageWriter, events: seq<Event>) returns (ok: bool)
    requires writer.Valid() && writer.failure == None && writer.Accepted() == [] && writer.offered == 0
    modifies writer`buffer, writer`chunks, writer`reserved, writer`written, writer`failure
    modifies writer`offered, writer`faulted
    modifies writer.spool`data, writer.spool`nextNonce, writer.spool`used, writer.spool`moves
    ensures writer.Valid() && old(writer.spool.used) <= writer.spool.used
            && old(writer.spool.moves) <= writer.spool.moves
    ensures ok && writer.failure == None ==> writer.Accepted() == Payload(events)
    ensures !ok ==> writer.failure.Some? || writer.faulted
    ensures writer.offered <= |Payload(events)|
  {
    hide Frame; hide Frames; hide Joined; hide ChunksFit; hide Lawful; hide Spent; hide Charged; hide BetweenFrames;
    for i := 0 to |events|
      invariant writer.Valid() && old(writer.spool.used) <= writer.spool.used
                && old(writer.spool.moves) <= writer.spool.moves
      invariant writer.failure == None ==> writer.Accepted() == Payload(events[..i])
      invariant writer.offered <= |Payload(events[..i])|
    {
      assert events[..i + 1][..i] == events[..i];
      PayloadGrows(events, i + 1);
      if * {
        writer.faulted := true;
        return false;
      }
      var done;
      match events[i] {
        case Put(bytes) => done := writer.PutAll(bytes);
        case Sync => done := writer.Flush();
      }
      if !done {
        return false;
      }
    }
    assert events[..|events|] == events;
    ok := true;
  }

  // ---------- appending a page ----------

  /** Truncates the failed page away; when that fails its bytes stay charged to the spool. */
  method RollbackPage(spool: SpoolFile, offset: nat, reserved: nat) returns (truncated: bool, ok: bool)
    requires offset <= |spool.data| && Charged(spool.moves, |spool.data|, spool.held, offset, reserved)
    modifies spool`data, spool`held, spool`moves
    ensures Q.Replay(spool.moves) == Some(Q.Account(|spool.data|, spool.held, Q.Ready))
    ensures old(spool.moves) <= spool.moves
    ensures truncated ==> spool.data == old(spool.data)[..offset] && spool.held == old(spool.held)
    ensures !truncated ==> spool.data == old(spool.data) && spool.held == old(spool.held) + reserved && !ok
  {
    hide Q.Replay; hide Charged;
    RollbackMoves(spool.moves, |spool.data|, spool.held, offset, reserved);
    if * {
      spool.held := spool.held + reserved;
      spool.moves := Broken(spool.moves) + [Q.Cut(false)];
      return false, false;
    }
    spool.data := spool.data[..offset];
    spool.moves := Broken(spool.moves) + [Q.Cut(true)] + [Q.GaveBack];
    truncated, ok := true, *;
  }

  /** A page whose frames were appended to the file is stored at the old end of the file. */
  lemma {:induction false} PageIsStored(c: Cipher, base: seq<Byte>, first: nat, pages: seq<PageLocation>,
                                        chunks: seq<seq<seq<Byte>>>, written: seq<seq<Byte>>)
    requires AllStored(c, base, first, pages, chunks) && |pages| < MAX_STREAM_RESULT_SPOOL_PAGES
    requires written != [] && ChunksFit(written) && first + |written| <= U64_MAX
    ensures AllStored(c, base + Frames(c, |pages|, first, written), first + |written|,
                      pages + [PageLocation(|base|, |written|, first)], chunks + [written])
  {
    var frames := Frames(c, |pages|, first, written);
    hide Frames;
    GrowthKeepsPages(c, base, base + frames, first, first + |written|, pages, chunks);
    var pages', chunks' := pages + [PageLocation(|base|, |written|, first)], chunks + [written];
    assert (base + frames)[|base|..|base| + |frames|] == frames;
    forall i, j | 0 <= i < j < |pages'| ensures pages'[i].firstNonce + pages'[i].chunks <= pages'[j].firstNonce {
      assert Stored(c, base, first, i, pages[i], chunks[i]);
    }
  }

  lemma {:induction false} NoChunksNoBytes(chunks: seq<seq<Byte>>)
    ensures chunks == [] ==> Joined(chunks) == []
  {
  }

  /** The writer run over the page: without an error, its chunks are the payload and follow the old file. */
  method WritePage(spool: SpoolFile, events: seq<Event>) returns (writer: PageWriter, error: Option<SpoolError>)
    requires spool.Valid() && Lawful(spool.cipher)
    modifies spool`data, spool`nextNonce, spool`used, spool`moves
    ensures writer.spool == spool && writer.page == |spool.pages| && writer.Valid()
    ensures writer.base == old(spool.data) && writer.first == old(spool.nextNonce)
    ensures old(spool.used) <= spool.used && old(spool.moves) <= spool.moves
    ensures error == None ==> writer.Sound() && writer.chunks > 0 && Joined(writer.written) == Payload(events)
    ensures error.Some? ==> PageError(error.value)
    ensures error == Some(InvalidFrame) ==>
              Payload(events) == [] || spool.nextNonce == U64_MAX || spool.nextNonce >= old(spool.nextNonce) + U32_MAX
    ensures spool.nextNonce <= old(spool.nextNonce) + |Payload(events)|
    ensures error.Some? && error != Some(InvalidFrame) ==> writer.faulted
  {
    hide Frame; hide Frames; hide ChunksFit; hide Lawful; hide Spent; hide AllStored; hide Payload; hide Joined;
    hide Charged; hide BetweenFrames; hide Q.Replay;
    BeginMoves(spool.moves, |spool.data|, spool.held);
    spool.moves := spool.moves + [Q.Began];
    writer := new PageWriter(spool, |spool.pages|);
    var serialized := Serialize(writer, events);
    if serialized && writer.failure == None {
      var flushed := writer.Flush();
    }
    NoChunksNoBytes(writer.written);
    if writer.failure != None {
      error := writer.failure;
    } else if !serialized {
      error := Some(Decode);
    } else {
      error := if writer.chunks == 0 then Some(InvalidFrame) else None;
    }
  }

  /** There is something to store, and there are numbers left for as many frames as it may take. */
  predicate Room(nextNonce: nat, size: nat) { 0 < size < U32_MAX && nextNonce + size < U64_MAX }

  /**
   Appends one page. On success its payload joins the stored ones; on any failure, at any point of
   the page, the stored pages are exactly what they were.
   */
  method AppendSerializedPage(spool: SpoolFile, events: seq<Event>)
    returns (r: Result<(), SpoolError>, ghost faulted: bool)
    requires spool.Valid() && Lawful(spool.cipher) && |spool.pages| < MAX_STREAM_RESULT_SPOOL_PAGES
    modifies spool
    ensures spool.Valid() && old(spool.used) <= spool.used && old(spool.moves) <= spool.moves
    ensures r.Ok? ==> spool.Contents() == old(spool.Contents()) + [Payload(events)]
    ensures r.Err? ==> spool.chunks == old(spool.chunks) && spool.pages == old(spool.pages)
    ensures r.Err? ==> PageError(r.error)
    ensures r == Err(InvalidFrame) ==>
              Payload(events) == [] || spool.nextNonce == U64_MAX || spool.nextNonce >= old(spool.nextNonce) + U32_MAX
    ensures spool.nextNonce <= old(spool.nextNonce) + |Payload(events)|
    ensures Room(old(spool.nextNonce), |Payload(events)|) && !faulted ==> r.Ok?
  {
    hide Frame; hide Frames; hide ChunksFit; hide Lawful; hide Spent; hide AllStored; hide Payload; hide Joined;
    hide Charged; hide BetweenFrames; hide Q.Replay;
    if * {
      return Err(Io), true;
    }
    var offset := |spool.data|;
    var writer, error := WritePage(spool, events);
    if error.Some? {
      var truncated, ok := RollbackPage(spool, offset, writer.reserved);
      GrowthKeepsPages(spool.cipher, writer.base, spool.data, writer.first, spool.nextNonce, spool.pages, spool.chunks);
      return Err(if ok then error.value else Io), writer.faulted || !ok;
    }
    faulted := false;
    PageIsStored(spool.cipher, writer.base, writer.first, spool.pages, spool.chunks, writer.written);
    KeptMoves(spool.moves, |spool.data|, spool.held, offset, writer.reserved);
    spool.moves := spool.moves + [Q.Kept];
    spool.held := spool.held + writer.reserved;
    spool.pages := spool.pages + [PageLocation(offset, writer.chunks, spool.nextNonce - writer.chunks)];
    spool.chunks := spool.chunks + [writer.written];
    r := Ok(());
  }

  /** The checks before a page: pages arrive in order and at most 4096 of them. */
  method AppendPage(spool: SpoolFile, index: nat, events: seq<Event>)
    returns (r: Result<(), SpoolError>, ghost faulted: bool)
    requires spool.Valid() && Lawful(spool.cipher)
    modifies spool
    ensures spool.Valid() && old(spool.used) <= spool.used && old(spool.moves) <= spool.moves
    ensures r.Ok? ==> index == |old(spool.Contents())| && spool.Contents() == old(spool.Contents()) + [Payload(events)]
    ensures r.Err? ==> spool.chunks == old(spool.chunks) && spool.pages == old(spool.pages)
    ensures r == Err(PageLimit) <==> index >= MAX_STREAM_RESULT_SPOOL_PAGES
    ensures r == Err(OutOfOrder) <==> index < MAX_STREAM_RESULT_SPOOL_PAGES && index != |old(spool.pages)|
    ensures r == Err(PageLimit) || r == Err(OutOfOrder) ==> !faulted
    ensures spool.nextNonce <= old(spool.nextNonce) + |Payload(events)|
    ensures index == |old(spool.pages)| < MAX_STREAM_RESULT_SPOOL_PAGES && !faulted ==>
              Room(old(spool.nextNonce), |Payload(events)|) ==> r.Ok?
  {
    hide Frame; hide ChunksFit; hide Lawful; hide Spent; hide Charged; hide BetweenFrames; hide Stored;
    if index >= MAX_STREAM_RESULT_SPOOL_PAGES {
      return Err(PageLimit), false;
    }
    if index != |spool.pages| {
      return Err(OutOfOrder), false;
    }
    r, faulted := AppendSerializedPage(spool, events);
  }

  // ---------- loading a page ----------

  /** Any read of the file may fail; when none does the result is that of the frames themselves. */
  method ReadPagePayload(c: Cipher, data: seq<Byte>, page: nat, loc: PageLocation)
    returns (r: Result<PageRead, SpoolError>, faulted: bool)
    ensures if faulted then r == Err(Io) else r == ReadFrames(c, data, loc.offset, page, loc.firstNonce, loc.chunks)
  {
    hide ReadFrame;
    faulted := false;
    var payload, pos, expected := [], loc.offset, loc.firstNonce;
    for i := 0 to loc.chunks
      invariant expected == loc.firstNonce + i && !faulted
      invariant ReadFrames(c, data, loc.offset, page, loc.firstNonce, i) == Ok(PageRead(payload, pos))
    {
      if * {
        return Err(Io), true;
      }
      var frame := ReadFrame(c, data, pos, page);
      if frame.Err? || frame.value.sequence != expected || expected >= U64_MAX {
        r := if frame.Err? then Err(frame.error) else Err(InvalidFrame);
        FailsOn(c, data, loc, page, i + 1, r);
        return;
      }
      payload, pos, expected := payload + frame.value.text, frame.value.next, expected + 1;
    }
    r := Ok(PageRead(payload, pos));
  }

  /** An error in one frame is the error of the page. */
  lemma {:induction false} FailsOn(c: Cipher, data: seq<Byte>, loc: PageLocation, page: nat, n: nat,
                                   r: Result<PageRead, SpoolError>)
    requires n <= loc.chunks && r.Err? && ReadFrames(c, data, loc.offset, page, loc.firstNonce, n) == r
    ensures ReadFrames(c, data, loc.offset, page, loc.firstNonce, loc.chunks) == r
    decreases loc.chunks - n
  {
    hide ReadFrame;
    if n < loc.chunks { FailsOn(c, data, loc, page, n + 1, r); }
  }

  /** Loading gives back exactly the payload the page was appended with, unless a seek or read fails. */
  method LoadPage(spool: SpoolFile, index: nat) returns (r: Result<seq<Byte>, SpoolError>, faulted: bool)
    requires spool.Valid() && Lawful(spool.cipher)
    ensures index >= |spool.Contents()| ==> r == Err(MissingPage) && !faulted
    ensures index < |spool.Contents()| ==> r == if faulted then Err(Io) else Ok(spool.Contents()[index])
  {
    if index >= |spool.pages| {
      return Err(MissingPage), false;
    }
    var loc := spool.pages[index];
    if * {
      return Err(Io), true;
    }
    assert Stored(spool.cipher, spool.data, spool.nextNonce, index, loc, spool.chunks[index]);
    FramesRoundTrip(spool.cipher, spool.data, loc.offset, index, loc.firstNonce, spool.chunks[index]);
    var page;
    page, faulted := ReadPagePayload(spool.cipher, spool.data, index, loc);
    r := if faulted then Err(Io) else Ok(page.value.payload);
  }

  // ---------- whole sessions ----------

  datatype Attempt = Attempt(index: nat, events: seq<Event>)

  function Count(flags: seq<bool>): nat {
    if flags == [] then 0 else Count(flags[..|flags| - 1]) + (if flags[|flags| - 1] then 1 else 0)
  }

  /** The bytes of all payloads together. */
  function Sizes(attempts: seq<Attempt>): nat {
    if attempts == [] then 0 else Sizes(attempts[..|attempts| - 1]) + |Payload(attempts[|attempts| - 1].events)|
  }

  /** Attempt `k` asks for the page after those stored by then. */
  ghost predicate InOrder(pages: nat, attempts: seq<Attempt>, appended: seq<bool>, k: nat)
    requires k < |attempts| && k <= |appended|
  {
    attempts[k].index == pages + Count(appended[..k]) < MAX_STREAM_RESULT_SPOOL_PAGES
  }

  /** Where nothing failed and there was room, a page is appended exactly when it comes in order. */
  ghost predicate AppendedInOrder(pages: nat, nextNonce: nat, attempts: seq<Attempt>, appended: seq<bool>,
                                  faulted: seq<bool>, k: nat)
    requires k < |appended| <= |attempts| && |appended| == |faulted|
  {
    && (appended[k] ==> InOrder(pages, attempts, appended, k))
    && (!faulted[k] && Room(nextNonce + Sizes(attempts[..k]), |Payload(attempts[k].events)|) ==>
          InOrder(pages, attempts, appended, k) ==> appended[k])
  }

  lemma {:induction false} OrderStands(pages: nat, nextNonce: nat, attempts: seq<Attempt>, appended: seq<bool>,
                                       faulted: seq<bool>, more: bool, failed: bool)
    requires |appended| == |faulted| < |attempts|
    requires forall k | 0 <= k < |appended| :: AppendedInOrder(pages, nextNonce, attempts, appended, faulted, k)
    requires AppendedInOrder(pages, nextNonce, attempts, appended + [more], faulted + [failed], |appended|)
    ensures forall k | 0 <= k <= |appended| ::
              AppendedInOrder(pages, nextNonce, attempts, appended + [more], faulted + [failed], k)
    ensures Count(appended + [more]) == Count(appended) + if more then 1 else 0
  {
    hide Payload; hide Sizes;
    assert (appended + [more])[..|appended|] == appended;
    forall k | 0 <= k < |appended|
      ensures AppendedInOrder(pages, nextNonce, attempts, appended + [more], faulted + [failed], k)
    {
      assert AppendedInOrder(pages, nextNonce, attempts, appended, faulted, k);
      assert (appended + [more])[..k] == appended[..k];
    }
  }

  /**
   Any run of append attempts, failing or not in any way: every page that was appended successfully
   is there with its payload, a page in order is appended unless something failed or ran out, and no
   sequence number was given to the cipher twice.
   */
  method RunAttempts(spool: SpoolFile, attempts: seq<Attempt>) returns (appended: seq<bool>, ghost faulted: seq<bool>)
    requires spool.Valid() && Lawful(spool.cipher)
    modifies spool
    ensures spool.Valid() && |appended| == |faulted| == |attempts|
    ensures old(spool.used) <= spool.used && old(spool.moves) <= spool.moves
    ensures old(spool.Contents()) <= spool.Contents()
    ensures forall k | 0 <= k < |attempts| && appended[k] ::
              && attempts[k].index < |spool.Contents()|
              && spool.Contents()[attempts[k].index] == Payload(attempts[k].events)
    ensures forall k | 0 <= k < |attempts| ::
              AppendedInOrder(|old(spool.pages)|, old(spool.nextNonce), attempts, appended, faulted, k)
    ensures forall i, j | 0 <= i < j < |spool.used| :: NonceFor(spool.used[i]) != NonceFor(spool.used[j])
  {
    hide Frame; hide ChunksFit; hide Lawful; hide Stored; hide Payload; hide Joined; hide Sizes; hide Count;
    hide AppendedInOrder; hide Q.Replay;
    appended, faulted := [], [];
    ghost var pages, first := |spool.pages|, spool.nextNonce;
    NothingCounted(attempts);
    for k := 0 to |attempts|
      invariant spool.Valid() && |appended| == |faulted| == k
      invariant old(spool.used) <= spool.used && old(spool.moves) <= spool.moves
      invariant old(spool.Contents()) <= spool.Contents()
      invariant |spool.pages| == pages + Count(appended) && spool.nextNonce <= first + Sizes(attempts[..k])
      invariant forall n | 0 <= n < k && appended[n] ::
                  && attempts[n].index < |spool.Contents()|
                  && spool.Contents()[attempts[n].index] == Payload(attempts[n].events)
      invariant forall n | 0 <= n < k :: AppendedInOrder(pages, first, attempts, appended, faulted, n)
    {
      ghost var before, nonce, stored := spool.Contents(), spool.nextNonce, |spool.pages|;
      var r;
      ghost var failed;
      r, failed := AppendPage(spool, attempts[k].index, attempts[k].events);
      assert before <= spool.Contents();
      OneMoreAttempt(pages, first, attempts, appended, faulted, r.Ok?, failed, nonce, stored);
      OrderStands(pages, first, attempts, appended, faulted, r.Ok?, failed);
      appended, faulted := appended + [r.Ok?], faulted + [failed];
    }
    forall i, j | 0 <= i < j < |spool.used| ensures NonceFor(spool.used[i]) != NonceFor(spool.used[j]) {
      if NonceFor(spool.used[i]) == NonceFor(spool.used[j]) { NonceInjective(spool.used[i], spool.used[j]); }
    }
  }

  lemma {:induction false} NothingCounted(attempts: seq<Attempt>)
    ensures Count([]) == 0 && Sizes(attempts[..0]) == 0
  {}

  lemma {:induction false} OneMoreAttempt(pages: nat, first: nat, attempts: seq<Attempt>, appended: seq<bool>,
                                          faulted: seq<bool>, more: bool, failed: bool, nonce: nat, stored: nat)
    requires |appended| == |faulted| < |attempts|
    requires var k := |appended|;
      && stored == pages + Count(appended) && nonce <= first + Sizes(attempts[..k])
      && (more ==> attempts[k].index == stored < MAX_STREAM_RESULT_SPOOL_PAGES)
      && (attempts[k].index == stored < MAX_STREAM_RESULT_SPOOL_PAGES && !failed ==>
            Room(nonce, |Payload(attempts[k].events)|) ==> more)
    ensures AppendedInOrder(pages, first, attempts, appended + [more], faulted + [failed], |appended|)
    ensures Sizes(attempts[..|appended| + 1]) == Sizes(attempts[..|appended|]) + |Payload(attempts[|appended|].events)|
  {
    hide Payload; hide Count;
    var k := |appended|;
    assert (appended + [more])[..k] == appended;
    assert attempts[..k + 1][..k] == attempts[..k];
  }

  // ---------- rows ----------

  /** MessagePack encoding of a page of rows, of which only the inverse law is used. */
  datatype Codec<!Page> = Codec(encode: Page -> seq<Byte>, decode: seq<Byte> -> Option<Page>)

  ghost predicate Inverse<Page(!new)>(codec: Codec<Page>) {
    forall page :: codec.decode(codec.encode(page)) == Some(page)
  }

  /** A page of rows comes back as it went in, unless a read fails. */
  method LoadRows<Page(!new)>(spool: SpoolFile, codec: Codec<Page>, index: nat)
    returns (r: Result<Page, SpoolError>, faulted: bool)
    requires spool.Valid() && Lawful(spool.cipher) && Inverse(codec)
    ensures faulted ==> r == Err(Io)
    ensures index >= |spool.Contents()| ==> r == Err(MissingPage) && !faulted
    ensures forall page | index < |spool.Contents()| && spool.Contents()[index] == codec.encode(page) ::
              !faulted ==> r == Ok(page)
  {
    var payload;
    payload, faulted := LoadPage(spool, index);
    if payload.Err? {
      return Err(payload.error), faulted;
    }
    match codec.decode(payload.value) {
      case None => r := Err(Decode);
      case Some(page) => r := Ok(page);
    }
  }

  /** Appending a page of rows: the serializer puts its encoding, in slices of its own choice. */
  datatype RowAttempt<!Page> = RowAttempt(index: nat, page: Page, events: seq<Event>)

  ghost predicate Encodes<Page>(codec: Codec<Page>, a: RowAttempt<Page>) { Payload(a.events) == codec.encode(a.page) }

  function Attempts<Page>(rows: seq<RowAttempt<Page>>): (r: seq<Attempt>)
    ensures |r| == |rows| && forall k | 0 <= k < |r| :: r[k] == Attempt(rows[k].index, rows[k].events)
  {
    seq(|rows|, k requires 0 <= k < |rows| => Attempt(rows[k].index, rows[k].events))
  }

  /**
   A whole session: any run of appends, failing or not, and then a load of every page asked for. Each
   page whose append succeeded and whose load met no read error has the rows it was given.
   */
  method AppendAndLoad<Page(!new)>(spool: SpoolFile, codec: Codec<Page>, rows: seq<RowAttempt<Page>>)
    returns (appended: seq<bool>, loaded: seq<Result<Page, SpoolError>>, faulted: seq<bool>,
             ghost failed: seq<bool>)
    requires spool.Valid() && Lawful(spool.cipher) && Inverse(codec) && forall a | a in rows :: Encodes(codec, a)
    modifies spool
    ensures spool.Valid() && |appended| == |loaded| == |faulted| == |failed| == |rows|
    ensures forall k | 0 <= k < |rows| ::
              AppendedInOrder(|old(spool.pages)|, old(spool.nextNonce), Attempts(rows), appended, failed, k)
    ensures forall k | 0 <= k < |rows| && appended[k] && !faulted[k] :: loaded[k] == Ok(rows[k].page)
  {
    hide Frame; hide ChunksFit; hide Lawful; hide Stored; hide Payload; hide Joined; hide Inverse;
    appended, failed := RunAttempts(spool, Attempts(rows));
    loaded, faulted := [], [];
    ghost var stored := spool.Contents();
    for k := 0 to |rows|
      invariant spool.Valid() && spool.Contents() == stored && |loaded| == |faulted| == k
      invariant forall n | 0 <= n < k && appended[n] && !faulted[n] :: loaded[n] == Ok(rows[n].page)
    {
      assert rows[k] in rows && Encodes(codec, rows[k]);
      var r, fault := LoadRows(spool, codec, rows[k].index);
      loaded, faulted := loaded + [r], faulted + [fault];
    }
  }
}
