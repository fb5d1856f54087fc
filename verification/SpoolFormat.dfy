/**
 The byte format of the encrypted result spool: big-endian numbers, frames, and reading a page of
 frames back. AES-GCM is a pair of functions of which only the inverse and length laws are used.
 */
module SpoolFormat {

  import opened Octets
  import opened Options

  const FRAME_VERSION: Byte := 1
  const FRAME_HEADER_BYTES := 25
  const AUTH_TAG_BYTES := 16
  const ENCRYPTION_CHUNK_BYTES := 65536
  const U32_MAX := 0xFFFF_FFFF
  const U64_MAX := 0xFFFF_FFFF_FFFF_FFFF

  datatype SpoolError =
    | OutOfOrder | PageLimit | QuotaExceeded | MissingPage | Create | Io | Encryption | Decode | InvalidFrame

  // ---------- numbers ----------

  function BigEndian(n: nat, width: nat): (bytes: seq<Byte>)
    ensures |bytes| == width
  {
    if width == 0 then [] else BigEndian(n / 256, width - 1) + [n % 256]
  }

  function FromBigEndian(bytes: seq<Byte>): nat {
    if bytes == [] then 0 else FromBigEndian(bytes[..|bytes| - 1]) * 256 + bytes[|bytes| - 1]
  }

  function Power256(width: nat): nat {
    if width == 0 then 1 else 256 * Power256(width - 1)
  }

  lemma {:induction false} BigEndianRoundTrip(n: nat, width: nat)
    requires n < Power256(width)
    ensures FromBigEndian(BigEndian(n, width)) == n
  {
    if width > 0 {
      BigEndianRoundTrip(n / 256, width - 1);
      var bytes := BigEndian(n, width);
      assert bytes[..width - 1] == BigEndian(n / 256, width - 1);
    }
  }

  lemma {:induction false} Widths()
    ensures Power256(4) == U32_MAX + 1 && Power256(8) == U64_MAX + 1
  {
    assert Power256(2) == 65536;
    assert Power256(4) == 256 * (256 * Power256(2));
    assert Power256(6) == 256 * (256 * Power256(4));
    assert Power256(8) == 256 * (256 * Power256(6));
  }

  // ---------- the cipher ----------

  /** Sealing and opening take a nonce, the associated data and the text. */
  datatype Cipher = Cipher(
    seal: (seq<Byte>, seq<Byte>, seq<Byte>) -> seq<Byte>,
    open: (seq<Byte>, seq<Byte>, seq<Byte>) -> Option<seq<Byte>>)

  ghost predicate Lawful(c: Cipher) {
    forall nonce, aad, text ::
      && |c.seal(nonce, aad, text)| == |text| + AUTH_TAG_BYTES
      && c.open(nonce, aad, c.seal(nonce, aad, text)) == Some(text)
  }

  function NonceFor(sequence: nat): seq<Byte> {
    [0, 0, 0, 0] + BigEndian(sequence, 8)
  }

  /** Different sequence numbers give different nonces. */
  lemma {:induction false} NonceInjective(m: nat, n: nat)
    requires m <= U64_MAX && n <= U64_MAX && NonceFor(m) == NonceFor(n)
    ensures m == n
  {
    Widths();
    BigEndianRoundTrip(m, 8);
    BigEndianRoundTrip(n, 8);
    assert NonceFor(m)[4..] == BigEndian(m, 8) && NonceFor(n)[4..] == BigEndian(n, 8);
  }

  function FrameAad(page: nat, sequence: nat, length: nat): seq<Byte> {
    [FRAME_VERSION] + BigEndian(page, 8) + BigEndian(sequence, 8) + BigEndian(length, 4)
  }

  // ---------- frames ----------

  function Header(page: nat, sequence: nat, plainLength: nat, sealedLength: nat): (h: seq<Byte>)
    ensures |h| == FRAME_HEADER_BYTES
  {
    [FRAME_VERSION] + BigEndian(page, 8) + BigEndian(sequence, 8) + BigEndian(plainLength, 4)
      + BigEndian(sealedLength, 4)
  }

  function Sealed(c: Cipher, page: nat, sequence: nat, text: seq<Byte>): seq<Byte> {
    c.seal(NonceFor(sequence), FrameAad(page, sequence, |text|), text)
  }

  function Frame(c: Cipher, page: nat, sequence: nat, text: seq<Byte>): seq<Byte> {
    var sealed := Sealed(c, page, sequence, text);
    Header(page, sequence, |text|, |sealed|) + sealed
  }

  /** The frames of a page whose chunks took consecutive sequence numbers from `first`. */
  function Frames(c: Cipher, page: nat, first: nat, chunks: seq<seq<Byte>>): seq<Byte> {
    if chunks == [] then []
    else
      var n := |chunks| - 1;
      Frames(c, page, first, chunks[..n]) + Frame(c, page, first + n, chunks[n])
  }

  function Joined(chunks: seq<seq<Byte>>): seq<Byte> {
    if chunks == [] then [] else Joined(chunks[..|chunks| - 1]) + chunks[|chunks| - 1]
  }

  // ---------- reading ----------

  datatype FrameRead = FrameRead(sequence: nat, text: seq<Byte>, next: nat)

  function ReadFrame(c: Cipher, data: seq<Byte>, pos: nat, expectedPage: nat): Result<FrameRead, SpoolError> {
    if pos + FRAME_HEADER_BYTES > |data| then Err(Io)
    else
      var version := data[pos];
      var page := FromBigEndian(data[pos + 1..pos + 9]);
      var sequence := FromBigEndian(data[pos + 9..pos + 17]);
      var plainLength := FromBigEndian(data[pos + 17..pos + 21]);
      var sealedLength := FromBigEndian(data[pos + 21..pos + 25]);
      if version != FRAME_VERSION || page != expectedPage || plainLength > ENCRYPTION_CHUNK_BYTES
         || sealedLength != plainLength + AUTH_TAG_BYTES
      then Err(InvalidFrame)
      else if pos + FRAME_HEADER_BYTES + sealedLength > |data| then Err(Io)
      else
        var sealed := data[pos + FRAME_HEADER_BYTES..pos + FRAME_HEADER_BYTES + sealedLength];
        match c.open(NonceFor(sequence), FrameAad(page, sequence, plainLength), sealed)
        case None => Err(Encryption)
        case Some(text) =>
          if |text| != plainLength then Err(InvalidFrame)
          else Ok(FrameRead(sequence, text, pos + FRAME_HEADER_BYTES + sealedLength))
  }

  datatype PageRead = PageRead(payload: seq<Byte>, next: nat)

  /** Reads `count` frames, which must carry the sequence numbers from `first` on. */
  function ReadFrames(c: Cipher, data: seq<Byte>, pos: nat, page: nat, first: nat, count: nat)
    : Result<PageRead, SpoolError>
  {
    if count == 0 then Ok(PageRead([], pos))
    else
      match ReadFrames(c, data, pos, page, first, count - 1)
      case Err(e) => Err(e)
      case Ok(before) =>
        match ReadFrame(c, data, before.next, page)
        case Err(e) => Err(e)
        case Ok(frame) =>
          if frame.sequence != first + count - 1 || frame.sequence >= U64_MAX then Err(InvalidFrame)
          else Ok(PageRead(before.payload + frame.text, frame.next))
  }

  // ---------- reading back what was written ----------

  lemma {:induction false} HeaderParts(page: nat, sequence: nat, plainLength: nat, sealedLength: nat)
    ensures var h := Header(page, sequence, plainLength, sealedLength);
      && h[0] == FRAME_VERSION && h[1..9] == BigEndian(page, 8) && h[9..17] == BigEndian(sequence, 8)
      && h[17..21] == BigEndian(plainLength, 4) && h[21..25] == BigEndian(sealedLength, 4)
  {
  }

  /** A frame found in the file is read back whole. */
  lemma {:induction false} FrameRoundTrip(c: Cipher, data: seq<Byte>, pos: nat, page: nat, sequence: nat,
                                          text: seq<Byte>)
    requires Lawful(c) && page <= U64_MAX && sequence <= U64_MAX && |text| <= ENCRYPTION_CHUNK_BYTES
    requires var frame := Frame(c, page, sequence, text);
      pos + |frame| <= |data| && data[pos..pos + |frame|] == frame
    ensures ReadFrame(c, data, pos, page)
            == Ok(FrameRead(sequence, text, pos + |Frame(c, page, sequence, text)|))
  {
    var sealed := Sealed(c, page, sequence, text);
    var frame := Frame(c, page, sequence, text);
    assert |sealed| == |text| + AUTH_TAG_BYTES;
    HeaderParts(page, sequence, |text|, |sealed|);
    HeaderInFile(data, pos, Header(page, sequence, |text|, |sealed|), sealed);
    Widths();
    BigEndianRoundTrip(page, 8);
    BigEndianRoundTrip(sequence, 8);
    BigEndianRoundTrip(|text|, 4);
    BigEndianRoundTrip(|sealed|, 4);
  }

  lemma {:induction false} HeaderInFile(data: seq<Byte>, pos: nat, header: seq<Byte>, sealed: seq<Byte>)
    requires |header| == FRAME_HEADER_BYTES && pos + FRAME_HEADER_BYTES + |sealed| <= |data|
    requires data[pos..pos + FRAME_HEADER_BYTES + |sealed|] == header + sealed
    ensures data[pos] == header[0] && data[pos + 1..pos + 9] == header[1..9] && data[pos + 9..pos + 17] == header[9..17]
    ensures data[pos + 17..pos + 21] == header[17..21] && data[pos + 21..pos + 25] == header[21..25]
    ensures data[pos + FRAME_HEADER_BYTES..pos + FRAME_HEADER_BYTES + |sealed|] == sealed
  {
    Subrange(data, pos, header, sealed);
    Within(data, pos, header, 1, 9);
    Within(data, pos, header, 9, 17);
    Within(data, pos, header, 17, 21);
    Within(data, pos, header, 21, 25);
    assert data[pos..pos + |header|][0] == data[pos];
  }

  lemma {:induction false} Within(data: seq<Byte>, pos: nat, part: seq<Byte>, from: nat, to: nat)
    requires pos + |part| <= |data| && data[pos..pos + |part|] == part && from <= to <= |part|
    ensures data[pos + from..pos + to] == part[from..to]
  {
    forall i | 0 <= i < to - from ensures data[pos + from..pos + to][i] == part[from..to][i] {
      assert data[pos..pos + |part|][from + i] == data[pos + (from + i)];
    }
  }

  /** The frames of a page lie in the file at `pos`. */
  ghost predicate FramesAt(c: Cipher, data: seq<Byte>, pos: nat, page: nat, first: nat, chunks: seq<seq<Byte>>) {
    && pos + |Frames(c, page, first, chunks)| <= |data|
    && data[pos..pos + |Frames(c, page, first, chunks)|] == Frames(c, page, first, chunks)
  }

  ghost predicate ChunksFit(chunks: seq<seq<Byte>>) {
    forall i | 0 <= i < |chunks| :: |chunks[i]| <= ENCRYPTION_CHUNK_BYTES
  }

  /** Reading a page's frames gives its chunks joined, however the text was cut into chunks. */
  lemma {:induction false} FramesRoundTrip(c: Cipher, data: seq<Byte>, pos: nat, page: nat, first: nat,
                                           chunks: seq<seq<Byte>>)
    requires Lawful(c) && page <= U64_MAX && first + |chunks| <= U64_MAX && ChunksFit(chunks)
    requires FramesAt(c, data, pos, page, first, chunks)
    ensures ReadFrames(c, data, pos, page, first, |chunks|)
            == Ok(PageRead(Joined(chunks), pos + |Frames(c, page, first, chunks)|))
  {
    hide Lawful; hide Frame; hide ReadFrame;
    if chunks != [] {
      var n := |chunks| - 1;
      var before, last := Frames(c, page, first, chunks[..n]), Frame(c, page, first + n, chunks[n]);
      Subrange(data, pos, before, last);
      FramesRoundTrip(c, data, pos, page, first, chunks[..n]);
      FrameRoundTrip(c, data, pos + |before|, page, first + n, chunks[n]);
    }
  }

  lemma {:induction false} Subrange(data: seq<Byte>, pos: nat, a: seq<Byte>, b: seq<Byte>)
    requires pos + |a + b| <= |data| && data[pos..pos + |a + b|] == a + b
    ensures data[pos..pos + |a|] == a && data[pos + |a|..pos + |a| + |b|] == b
  {
    assert (a + b)[..|a|] == a && (a + b)[|a|..] == b;
  }

  // ---------- what is bound, and what is refused ----------

  /** A nonce is four zero bytes and the sequence number. */
  lemma {:induction false} NonceBytes(sequence: nat)
    requires sequence <= U64_MAX
    ensures |NonceFor(sequence)| == 12 && NonceFor(sequence)[..4] == [0, 0, 0, 0]
    ensures FromBigEndian(NonceFor(sequence)[4..]) == sequence
  {
    Widths();
    BigEndianRoundTrip(sequence, 8);
    assert NonceFor(sequence)[4..] == BigEndian(sequence, 8);
  }

  /** The associated data of a frame says its version, page, sequence number and length. */
  lemma {:induction false} AadBytes(page: nat, sequence: nat, length: nat)
    requires page <= U64_MAX && sequence <= U64_MAX && length <= U32_MAX
    ensures var aad := FrameAad(page, sequence, length);
      && |aad| == 21 && aad[0] == 1 && FromBigEndian(aad[1..9]) == page && FromBigEndian(aad[9..17]) == sequence
      && FromBigEndian(aad[17..21]) == length
  {
    Widths();
    BigEndianRoundTrip(page, 8);
    BigEndianRoundTrip(sequence, 8);
    BigEndianRoundTrip(length, 4);
    hide BigEndian; hide FromBigEndian;
    var aad := FrameAad(page, sequence, length);
    assert aad[1..9] == BigEndian(page, 8) && aad[9..17] == BigEndian(sequence, 8);
    assert aad[17..21] == BigEndian(length, 4);
  }

  /** So no two frames of different page, number or length are sealed with the same data. */
  lemma {:induction false} AadBinds(page: nat, sequence: nat, length: nat, page': nat, sequence': nat, length': nat)
    requires page <= U64_MAX && sequence <= U64_MAX && length <= U32_MAX
    requires page' <= U64_MAX && sequence' <= U64_MAX && length' <= U32_MAX
    requires FrameAad(page, sequence, length) == FrameAad(page', sequence', length')
    ensures page == page' && sequence == sequence' && length == length'
  {
    AadBytes(page, sequence, length);
    AadBytes(page', sequence', length');
  }

  /** The header at `pos` is one of a frame of that page: version, page, and two lengths that fit. */
  ghost predicate HeaderFits(data: seq<Byte>, pos: nat, page: nat) {
    && pos + 25 <= |data| && data[pos] == 1 && FromBigEndian(data[pos + 1..pos + 9]) == page
    && FromBigEndian(data[pos + 17..pos + 21]) <= 65536
    && FromBigEndian(data[pos + 21..pos + 25]) == FromBigEndian(data[pos + 17..pos + 21]) + 16
  }

  /** The cipher opened `text` under this page, this number and this length. */
  ghost predicate Authentic(c: Cipher, data: seq<Byte>, pos: nat, page: nat, sequence: nat, text: seq<Byte>) {
    && HeaderFits(data, pos, page) && FromBigEndian(data[pos + 9..pos + 17]) == sequence
    && FromBigEndian(data[pos + 17..pos + 21]) == |text| && pos + 25 + |text| + 16 <= |data|
    && var sealed := data[pos + 25..pos + 25 + |text| + 16];
       c.open(NonceFor(sequence), FrameAad(page, sequence, |text|), sealed) == Some(text)
  }

  /** A frame is read exactly when it is authentic; every other frame is refused, with the reason. */
  lemma {:induction false} FrameVerdict(c: Cipher, data: seq<Byte>, pos: nat, page: nat)
    ensures match ReadFrame(c, data, pos, page)
      case Ok(frame) =>
        Authentic(c, data, pos, page, frame.sequence, frame.text) && frame.next == pos + 25 + |frame.text| + 16
      case Err(e) =>
        && (forall sequence, text :: !Authentic(c, data, pos, page, sequence, text))
        && (e == Io <==> pos + 25 > |data| || (HeaderFits(data, pos, page)
                         && pos + 25 + FromBigEndian(data[pos + 21..pos + 25]) > |data|))
        && (pos + 25 <= |data| && !HeaderFits(data, pos, page) ==> e == InvalidFrame)
        && (e == Io || e == InvalidFrame || e == Encryption)
  {
    hide FromBigEndian; hide BigEndian; hide NonceFor; hide FrameAad;
  }

  /** A frame of one page is refused where another page is read. */
  lemma {:induction false} WrongPageRefused(c: Cipher, data: seq<Byte>, pos: nat, page: nat, other: nat, sequence: nat,
                                            text: seq<Byte>)
    requires Lawful(c) && page <= U64_MAX && sequence <= U64_MAX && |text| <= ENCRYPTION_CHUNK_BYTES && other != page
    requires var frame := Frame(c, page, sequence, text);
      pos + |frame| <= |data| && data[pos..pos + |frame|] == frame
    ensures ReadFrame(c, data, pos, other) == Err(InvalidFrame)
  {
    var sealed := Sealed(c, page, sequence, text);
    HeaderParts(page, sequence, |text|, |sealed|);
    HeaderInFile(data, pos, Header(page, sequence, |text|, |sealed|), sealed);
    Widths();
    BigEndianRoundTrip(page, 8);
    hide BigEndian; hide FromBigEndian;
    FrameVerdict(c, data, pos, other);
    hide ReadFrame;
    assert !HeaderFits(data, pos, other);
  }

  /** And a frame of the right page is refused where another number is due. */
  lemma {:induction false} WrongNumberRefused(c: Cipher, data: seq<Byte>, pos: nat, page: nat, first: nat, count: nat,
                                              sequence: nat, text: seq<Byte>)
    requires Lawful(c) && page <= U64_MAX && sequence <= U64_MAX && |text| <= ENCRYPTION_CHUNK_BYTES
    requires ReadFrames(c, data, pos, page, first, count).Ok? && sequence != first + count
    requires var frame := Frame(c, page, sequence, text);
      var place := ReadFrames(c, data, pos, page, first, count).value.next;
      place + |frame| <= |data| && data[place..place + |frame|] == frame
    ensures ReadFrames(c, data, pos, page, first, count + 1) == Err(InvalidFrame)
  {
    FrameRoundTrip(c, data, ReadFrames(c, data, pos, page, first, count).value.next, page, sequence, text);
  }

  /** Where the chunks of a page begin, one frame after the other. */
  function FramePlace(pos: nat, chunks: seq<seq<Byte>>): nat {
    if chunks == [] then pos else FramePlace(pos, chunks[..|chunks| - 1]) + 25 + |chunks[|chunks| - 1]| + 16
  }

  /**
   Whatever is in the file: a page that is read consists of as many chunks as asked for, each opened by
   the cipher under this page and the next sequence number, one frame after the other.
   */
  lemma {:induction false} PageIsAuthentic(c: Cipher, data: seq<Byte>, pos: nat, page: nat, first: nat, count: nat)
    returns (chunks: seq<seq<Byte>>)
    requires ReadFrames(c, data, pos, page, first, count).Ok?
    ensures |chunks| == count && ReadFrames(c, data, pos, page, first, count).value.payload == Joined(chunks)
    ensures ReadFrames(c, data, pos, page, first, count).value.next == FramePlace(pos, chunks)
    ensures forall i | 0 <= i < count ::
              Authentic(c, data, FramePlace(pos, chunks[..i]), page, first + i, chunks[i])
  {
    hide Authentic; hide ReadFrame;
    if count == 0 {
      chunks := [];
    } else {
      var before := PageIsAuthentic(c, data, pos, page, first, count - 1);
      var place := ReadFrames(c, data, pos, page, first, count - 1).value.next;
      FrameVerdict(c, data, place, page);
      var frame := ReadFrame(c, data, place, page).value;
      chunks := before + [frame.text];
      assert chunks[..count - 1] == before;
      forall i | 0 <= i < count
        ensures Authentic(c, data, FramePlace(pos, chunks[..i]), page, first + i, chunks[i])
      {
        if i < count - 1 { assert chunks[..i] == before[..i] && chunks[i] == before[i]; }
      }
    }
  }
}
