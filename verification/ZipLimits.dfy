/** The ZIP pre-check on office documents (desktop/tray-tauri/src/workspace-documents.js:9-51):
    a reader of the central directory that stops before anything is unpacked. Layouts are
    those of sections 4.3.12 and 4.3.16 of PKWARE APPNOTE.TXT. */
module ZipLimits {
  import opened Seqs

  type Byte = x: int | 0 <= x < 256
  type Bytes = seq<Byte>

  // ---------------------------------------------------------- little-endian words

  function U16(b: Bytes, i: nat): nat
    requires i + 2 <= |b|
  {
    b[i] as int + 256 * b[i + 1] as int
  }

  function U32(b: Bytes, i: nat): nat
    requires i + 4 <= |b|
  {
    U16(b, i) + 0x10000 * U16(b, i + 2)
  }

  function Word16(n: nat): (w: Bytes)
    requires n < 0x10000
    ensures |w| == 2
  {
    [n % 256, n / 256]
  }

  function Word32(n: nat): (w: Bytes)
    requires n < 0x1_0000_0000
    ensures |w| == 4
  {
    Word16(n % 0x10000) + Word16(n / 0x10000)
  }

  /** A word read is the word written, and the bytes there are its encoding. */
  lemma Word16At(b: Bytes, i: nat, n: nat)
    requires i + 2 <= |b| && n < 0x10000
    ensures At(b, i, i + 2, Word16(n)) <==> U16(b, i) == n
  {
    var s := b[i..i + 2];
    assert s[0] == b[i] && s[1] == b[i + 1];
    assert s == Word16(n) <==> s[0] == n % 256 && s[1] == n / 256;
  }

  lemma Word32At(b: Bytes, i: nat, n: nat)
    requires i + 4 <= |b| && n < 0x1_0000_0000
    ensures At(b, i, i + 4, Word32(n)) <==> U32(b, i) == n
  {
    Word16At(b, i, n % 0x10000);
    Word16At(b, i + 2, n / 0x10000);
    U16Small(b, i);
    if U32(b, i) == n {
      AtJoin(b, i, i + 2, i + 4, Word16(n % 0x10000), Word16(n / 0x10000));
    }
    if At(b, i, i + 4, Word32(n)) {
      AtConcat(b, i, i + 4, Word16(n % 0x10000), Word16(n / 0x10000));
    }
  }

  lemma U16Small(b: Bytes, i: nat)
    requires i + 2 <= |b|
    ensures U16(b, i) < 0x10000
  {
  }

  lemma U32Small(b: Bytes, i: nat)
    requires i + 4 <= |b|
    ensures U32(b, i) < 0x1_0000_0000
  {
  }

  // ------------------------------------------------------------ directory entries

  const ENTRY_SIGNATURE: nat := 0x02014b50
  const END_SIGNATURE: nat := 0x06054b50
  const NONE16: nat := 0xffff
  const NONE32: nat := 0xffffffff

  /** One central directory header: versions to checksum, the two sizes, attributes and
      local offset, then the three variable fields. */
  datatype Entry = Entry(
    versions: Bytes, compressed: nat, uncompressed: nat, attributes: Bytes,
    name: Bytes, extra: Bytes, comment: Bytes)

  predicate Encodable(e: Entry) {
    |e.versions| == 16 && |e.attributes| == 10 &&
    e.compressed <= NONE32 && e.uncompressed <= NONE32 &&
    |e.name| <= NONE16 && |e.extra| <= NONE16 && |e.comment| <= NONE16
  }

  function Words(a: nat, b: nat, c: nat, d: nat): (w: Bytes)
    requires a <= NONE16 && b <= NONE16 && c <= NONE16 && d <= NONE16
    ensures |w| == 8
  {
    Word16(a) + (Word16(b) + (Word16(c) + Word16(d)))
  }

  function Sizes(compressed: nat, uncompressed: nat): (w: Bytes)
    requires compressed <= NONE32 && uncompressed <= NONE32
    ensures |w| == 8
  {
    Word32(compressed) + Word32(uncompressed)
  }

  function Fixed(e: Entry): (w: Bytes)
    requires Encodable(e)
    ensures |w| == 46
  {
    Word32(ENTRY_SIGNATURE) + (e.versions + (Sizes(e.compressed, e.uncompressed) +
      (Words(|e.name|, |e.extra|, |e.comment|, 0) + e.attributes)))
  }

  function Encode(e: Entry): (w: Bytes)
    requires Encodable(e)
    ensures |w| == 46 + |e.name| + |e.extra| + |e.comment|
  {
    Fixed(e) + (e.name + (e.extra + e.comment))
  }

  ghost predicate AllEncodable(es: seq<Entry>) {
    forall e <- es :: Encodable(e)
  }

  function EncodeAll(es: seq<Entry>): Bytes
    requires AllEncodable(es)
  {
    if |es| == 0 then [] else Encode(es[0]) + EncodeAll(es[1..])
  }

  function Sum(es: seq<Entry>): nat {
    if |es| == 0 then 0 else es[0].uncompressed + Sum(es[1..])
  }

  // ------------------------------------------------------------------- limits

  datatype Limits = Limits(entries: nat, total: nat, entry: nat, ratio: nat)

  const OFFICE_LIMITS := Limits(5000, 128 * 1024 * 1024, 32 * 1024 * 1024, 200)

  predicate SizeAllowed(compressed: nat, uncompressed: nat, limits: Limits) {
    compressed != NONE32 && uncompressed != NONE32 && uncompressed <= limits.entry &&
    (uncompressed > 0 ==> compressed > 0 && uncompressed <= Times(limits.ratio, compressed))
  }

  /** A product, written so that proofs about entries stay linear. */
  function Times(k: nat, n: nat): nat {
    if k == 0 then 0 else n + Times(k - 1, n)
  }

  lemma {:induction false} TimesIsProduct(k: nat, n: nat)
    ensures Times(k, n) == k * n
  {
    if k > 0 {
      TimesIsProduct(k - 1, n);
    }
  }

  predicate AllSizesAllowed(es: seq<Entry>, limits: Limits) {
    forall e <- es :: SizeAllowed(e.compressed, e.uncompressed, limits)
  }

  predicate Allowed(es: seq<Entry>, limits: Limits) {
    |es| <= limits.entries && Sum(es) <= limits.total &&
    AllSizesAllowed(es, limits)
  }

  datatype Fault =
    | NoDirectory | Unsupported | TooManyEntries | BadEntry | UnsupportedEntry
    | EntryTooBig | TotalTooBig | RatioTooBig | BadLength

  datatype Verdict = Accepted(entries: nat, total: nat) | Rejected(fault: Fault)

  // ------------------------------------------------------------ reading the entries

  function NextEntry(b: Bytes, i: nat): nat
    requires i + 46 <= |b|
  {
    i + 46 + U16(b, i + 28) + U16(b, i + 30) + U16(b, i + 32)
  }

  /** What is wrong with the entry at i, in the order the code looks; Accepted if nothing. */
  function Inspect(b: Bytes, i: nat, end: nat, total: nat, limits: Limits): Verdict
    requires end <= |b|
  {
    if i + 46 > end || U32(b, i) != ENTRY_SIGNATURE then Rejected(BadEntry)
    else
      var compressed, uncompressed := U32(b, i + 20), U32(b, i + 24);
      if U16(b, i + 34) != 0 || compressed == NONE32 || uncompressed == NONE32 || NextEntry(b, i) > end then
        Rejected(UnsupportedEntry)
      else if uncompressed > limits.entry then Rejected(EntryTooBig)
      else if total + uncompressed > limits.total then Rejected(TotalTooBig)
      else if uncompressed > 0 && (compressed == 0 || uncompressed > Times(limits.ratio, compressed)) then
        Rejected(RatioTooBig)
      else Accepted(1, uncompressed)
  }

  function Walk(b: Bytes, i: nat, end: nat, left: nat, total: nat, limits: Limits): Verdict
    requires end <= |b|
    decreases left
  {
    if left == 0 then (if i == end then Accepted(0, total) else Rejected(BadLength))
    else
      var v := Inspect(b, i, end, total, limits);
      if v.Rejected? then v else Walk(b, NextEntry(b, i), end, left - 1, total + v.total, limits)
  }

  /** The last signature at or before offset, not further back than a comment can reach. */
  function ScanBack(b: Bytes, offset: int): (r: int)
    requires offset + 22 <= |b|
    ensures -1 <= r && (r >= 0 ==> r + 22 <= |b|)
    decreases offset + 1
  {
    if offset < 0 || offset < |b| - 22 - NONE16 then -1
    else if U32(b, offset) == END_SIGNATURE then offset
    else ScanBack(b, offset - 1)
  }

  /** What the end record at i is rejected for, before the entries are read. */
  function InspectEnd(b: Bytes, i: nat, limits: Limits): Verdict
    requires i + 22 <= |b|
  {
    var entries, size, offset := U16(b, i + 10), U32(b, i + 12), U32(b, i + 16);
    if U16(b, i + 4) != 0 || U16(b, i + 6) != 0 || U16(b, i + 8) != entries || entries == NONE16 ||
       size == NONE32 || offset == NONE32 || i + 22 + U16(b, i + 20) > |b| then Rejected(Unsupported)
    else if entries > limits.entries then Rejected(TooManyEntries)
    else if offset + size > i then Rejected(NoDirectory)
    else Accepted(entries, 0)
  }

  /** The verdict once the end record is found at i. */
  function VerifyAt(b: Bytes, i: nat, limits: Limits): Verdict
    requires i + 22 <= |b|
  {
    var v := InspectEnd(b, i, limits);
    if v.Rejected? then v
    else
      var offset, size := U32(b, i + 16), U32(b, i + 12);
      var w := Walk(b, offset, offset + size, v.entries, 0, limits);
      if w.Rejected? then w else Accepted(v.entries, w.total)
  }

  function Verify(b: Bytes, limits: Limits): Verdict {
    var i := ScanBack(b, |b| - 22);
    if i < 0 then Rejected(NoDirectory) else VerifyAt(b, i, limits)
  }

  /** The code's own loop over the entries. */
  method CheckEntries(b: Bytes, offset: nat, end: nat, entries: nat, limits: Limits) returns (v: Verdict)
    requires end <= |b|
    ensures var w := Walk(b, offset, end, entries, 0, limits);
      v == if w.Rejected? then w else Accepted(entries, w.total)
  {
    var cursor: nat, total: nat := offset, 0;
    for index := 0 to entries
      invariant Walk(b, offset, end, entries, 0, limits) == Walk(b, cursor, end, entries - index, total, limits)
    {
      if cursor + 46 > end || U32(b, cursor) != ENTRY_SIGNATURE {
        return Rejected(BadEntry);
      }
      var compressed := U32(b, cursor + 20);
      var uncompressed := U32(b, cursor + 24);
      var nameLength := U16(b, cursor + 28);
      var extraLength := U16(b, cursor + 30);
      var commentLength := U16(b, cursor + 32);
      var next := cursor + 46 + nameLength + extraLength + commentLength;
      if U16(b, cursor + 34) != 0 || compressed == NONE32 || uncompressed == NONE32 || next > end {
        return Rejected(UnsupportedEntry);
      }
      if uncompressed > limits.entry {
        return Rejected(EntryTooBig);
      }
      total := total + uncompressed;
      if total > limits.total {
        return Rejected(TotalTooBig);
      }
      TimesIsProduct(limits.ratio, compressed);
      if uncompressed > 0 && (compressed == 0 || uncompressed > limits.ratio * compressed) {
        return Rejected(RatioTooBig);
      }
      cursor := next;
    }
    if cursor != end {
      return Rejected(BadLength);
    }
    return Accepted(entries, total);
  }

  /** Every read of b is in bounds for any b at all. */
  method ValidateOfficeZipLimits(b: Bytes, limits: Limits := OFFICE_LIMITS) returns (v: Verdict)
    ensures v == Verify(b, limits)
  {
    var eocd := -1;
    var offset := |b| - 22;
    while offset >= 0 && offset >= |b| - 22 - NONE16
      invariant offset <= |b| - 22
      invariant ScanBack(b, |b| - 22) == ScanBack(b, offset)
    {
      if U32(b, offset) == END_SIGNATURE {
        eocd := offset;
        break;
      }
      offset := offset - 1;
    }
    if eocd < 0 {
      return Rejected(NoDirectory);
    }
    var end := InspectEnd(b, eocd, limits);
    if end.Rejected? {
      return end;
    }
    var directoryOffset := U32(b, eocd + 16);
    v := CheckEntries(b, directoryOffset, directoryOffset + U32(b, eocd + 12), U16(b, eocd + 10), limits);
  }

  // ------------------------------------------- the bytes of an entry and its fields

  lemma SizesAt(b: Bytes, i: nat, compressed: nat, uncompressed: nat)
    requires i + 8 <= |b| && compressed <= NONE32 && uncompressed <= NONE32
    ensures At(b, i, i + 8, Sizes(compressed, uncompressed)) <==> U32(b, i) == compressed && U32(b, i + 4) == uncompressed
  {
    var x, y := Word32(compressed), Word32(uncompressed);
    Word32At(b, i, compressed);
    Word32At(b, i + 4, uncompressed);
    if At(b, i, i + 8, x + y) {
      AtConcat(b, i, i + 8, x, y);
    }
    if At(b, i, i + 4, x) && At(b, i + 4, i + 8, y) {
      AtJoin(b, i, i + 4, i + 8, x, y);
    }
  }

  lemma WordPairAt(b: Bytes, i: nat, m: nat, n: nat)
    requires i + 4 <= |b| && m <= NONE16 && n <= NONE16
    ensures At(b, i, i + 4, Word16(m) + Word16(n)) <==> U16(b, i) == m && U16(b, i + 2) == n
  {
    Word16At(b, i, m);
    Word16At(b, i + 2, n);
    if At(b, i, i + 4, Word16(m) + Word16(n)) {
      AtConcat(b, i, i + 4, Word16(m), Word16(n));
    }
    if At(b, i, i + 2, Word16(m)) && At(b, i + 2, i + 4, Word16(n)) {
      AtJoin(b, i, i + 2, i + 4, Word16(m), Word16(n));
    }
  }

  predicate FourWords(b: Bytes, i: nat, m: nat, n: nat, p: nat, q: nat)
    requires i + 8 <= |b|
  {
    U16(b, i) == m && U16(b, i + 2) == n && U16(b, i + 4) == p && U16(b, i + 6) == q
  }

  lemma WordsAt(b: Bytes, i: nat, m: nat, n: nat, p: nat, q: nat)
    requires i + 8 <= |b| && m <= NONE16 && n <= NONE16 && p <= NONE16 && q <= NONE16
    ensures At(b, i, i + 8, Words(m, n, p, q)) <==> FourWords(b, i, m, n, p, q)
  {
    var x, y := Word16(m) + Word16(n), Word16(p) + Word16(q);
    assert Words(m, n, p, q) == x + y;
    WordPairAt(b, i, m, n);
    WordPairAt(b, i + 4, p, q);
    if At(b, i, i + 8, x + y) {
      AtConcat(b, i, i + 8, x, y);
    }
    if At(b, i, i + 4, x) && At(b, i + 4, i + 8, y) {
      AtJoin(b, i, i + 4, i + 8, x, y);
    }
  }

  /** The fields of an entry at i, as section 4.3.12 places them. */
  predicate Fields(b: Bytes, i: nat, e: Entry)
    requires Encodable(e) && i + 46 <= |b|
  {
    U32(b, i) == ENTRY_SIGNATURE && At(b, i + 4, i + 20, e.versions) &&
    U32(b, i + 20) == e.compressed && U32(b, i + 24) == e.uncompressed &&
    FourWords(b, i + 28, |e.name|, |e.extra|, |e.comment|, 0) && At(b, i + 36, i + 46, e.attributes)
  }

  lemma FixedAt(b: Bytes, i: nat, e: Entry)
    requires Encodable(e) && i + 46 <= |b| && At(b, i, i + 46, Fixed(e))
    ensures Fields(b, i, e)
  {
    var signature, sizes := Word32(ENTRY_SIGNATURE), Sizes(e.compressed, e.uncompressed);
    var lengths := Words(|e.name|, |e.extra|, |e.comment|, 0);
    AtConcat(b, i, i + 46, signature, e.versions + (sizes + (lengths + e.attributes)));
    AtConcat(b, i + 4, i + 46, e.versions, sizes + (lengths + e.attributes));
    AtConcat(b, i + 20, i + 46, sizes, lengths + e.attributes);
    AtConcat(b, i + 28, i + 46, lengths, e.attributes);
    Word32At(b, i, ENTRY_SIGNATURE);
    SizesAt(b, i + 20, e.compressed, e.uncompressed);
    WordsAt(b, i + 28, |e.name|, |e.extra|, |e.comment|, 0);
  }

  lemma FixedFrom(b: Bytes, i: nat, e: Entry)
    requires Encodable(e) && i + 46 <= |b| && Fields(b, i, e)
    ensures At(b, i, i + 46, Fixed(e))
  {
    var signature, sizes := Word32(ENTRY_SIGNATURE), Sizes(e.compressed, e.uncompressed);
    var lengths := Words(|e.name|, |e.extra|, |e.comment|, 0);
    Word32At(b, i, ENTRY_SIGNATURE);
    SizesAt(b, i + 20, e.compressed, e.uncompressed);
    WordsAt(b, i + 28, |e.name|, |e.extra|, |e.comment|, 0);
    AtJoin(b, i + 28, i + 36, i + 46, lengths, e.attributes);
    AtJoin(b, i + 20, i + 28, i + 46, sizes, lengths + e.attributes);
    AtJoin(b, i + 4, i + 20, i + 46, e.versions, sizes + (lengths + e.attributes));
    AtJoin(b, i, i + 4, i + 46, signature, e.versions + (sizes + (lengths + e.attributes)));
  }

  lemma EntryAt(b: Bytes, i: nat, k: nat, e: Entry)
    requires Encodable(e) && At(b, i, k, Encode(e))
    ensures i + 46 <= k && Fields(b, i, e) && NextEntry(b, i) == k
  {
    AtConcat(b, i, k, Fixed(e), e.name + (e.extra + e.comment));
    FixedAt(b, i, e);
  }

  /** The entry whose bytes stand at i. */
  function EntryFrom(b: Bytes, i: nat): (e: Entry)
    requires i + 46 <= |b| && NextEntry(b, i) <= |b|
    ensures Encodable(e)
  {
    var name := i + 46;
    var extra := name + U16(b, i + 28);
    var comment := extra + U16(b, i + 30);
    U32Small(b, i + 20);
    U32Small(b, i + 24);
    Entry(b[i + 4..i + 20], U32(b, i + 20), U32(b, i + 24), b[i + 36..i + 46],
          b[name..extra], b[extra..comment], b[comment..NextEntry(b, i)])
  }

  lemma EntryFromAt(b: Bytes, i: nat)
    requires i + 46 <= |b| && NextEntry(b, i) <= |b| && U32(b, i) == ENTRY_SIGNATURE && U16(b, i + 34) == 0
    ensures At(b, i, NextEntry(b, i), Encode(EntryFrom(b, i)))
  {
    var e := EntryFrom(b, i);
    var extra := i + 46 + |e.name|;
    var comment := extra + |e.extra|;
    FixedFrom(b, i, e);
    AtJoin(b, extra, comment, NextEntry(b, i), e.extra, e.comment);
    AtJoin(b, i + 46, extra, NextEntry(b, i), e.name, e.extra + e.comment);
    AtJoin(b, i, i + 46, NextEntry(b, i), Fixed(e), e.name + (e.extra + e.comment));
  }

  // -------------------------------------------------- the walk tiles the directory

  /** The entries es fill b exactly from i to end. */
  ghost predicate Tile(b: Bytes, i: nat, end: nat, es: seq<Entry>) {
    AllEncodable(es) && At(b, i, end, EncodeAll(es))
  }

  lemma TileFirst(b: Bytes, i: nat, end: nat, es: seq<Entry>)
    requires Tile(b, i, end, es) && |es| > 0
    ensures i + 46 <= end && U32(b, i) == ENTRY_SIGNATURE && U16(b, i + 34) == 0
    ensures U32(b, i + 20) == es[0].compressed && U32(b, i + 24) == es[0].uncompressed
    ensures NextEntry(b, i) <= end && Tile(b, NextEntry(b, i), end, es[1..])
  {
    var k := i + |Encode(es[0])|;
    AtConcat(b, i, end, Encode(es[0]), EncodeAll(es[1..]));
    EntryAt(b, i, k, es[0]);
  }

  lemma {:induction false} TileCons(b: Bytes, i: nat, end: nat, es: seq<Entry>)
    requires i + 46 <= |b| && U32(b, i) == ENTRY_SIGNATURE && U16(b, i + 34) == 0
    requires NextEntry(b, i) <= |b| && Tile(b, NextEntry(b, i), end, es)
    ensures Tile(b, i, end, [EntryFrom(b, i)] + es)
  {
    var e := EntryFrom(b, i);
    EntryFromAt(b, i);
    AtJoin(b, i, NextEntry(b, i), end, Encode(e), EncodeAll(es));
    assert ([e] + es)[1..] == es;
  }

  lemma AllowedCons(es: seq<Entry>, limits: Limits)
    requires |es| > 0 && SizeAllowed(es[0].compressed, es[0].uncompressed, limits) && AllSizesAllowed(es[1..], limits)
    ensures AllSizesAllowed(es, limits)
  {
    forall e <- es ensures SizeAllowed(e.compressed, e.uncompressed, limits) {
      assert e == es[0] || e in es[1..];
    }
  }

  /** An accepted walk has an acceptable entry first and goes on behind it. */
  lemma WalkRest(b: Bytes, i: nat, end: nat, left: nat, total: nat, limits: Limits, v: Verdict)
    requires left > 0 && end <= |b| && Walk(b, i, end, left, total, limits) == v && v.Accepted?
    ensures i + 46 <= end && NextEntry(b, i) <= end && U32(b, i) == ENTRY_SIGNATURE && U16(b, i + 34) == 0
    ensures SizeAllowed(U32(b, i + 20), U32(b, i + 24), limits) && total + U32(b, i + 24) <= limits.total
    ensures Walk(b, NextEntry(b, i), end, left - 1, total + U32(b, i + 24), limits) == v
  {
  }

  lemma {:induction false} WalkEnd(b: Bytes, i: nat, end: nat, total: nat, limits: Limits, v: Verdict) returns (es: seq<Entry>)
    requires i <= end <= |b| && Walk(b, i, end, 0, total, limits) == v && v.Accepted?
    ensures Tile(b, i, end, es) && |es| == 0 && AllSizesAllowed(es, limits) && total + Sum(es) == v.total
  {
    es := [];
  }

  lemma {:induction false} TileExtended(b: Bytes, i: nat, end: nat, rest: seq<Entry>, limits: Limits) returns (es: seq<Entry>)
    requires i + 46 <= |b| && U32(b, i) == ENTRY_SIGNATURE && U16(b, i + 34) == 0
    requires NextEntry(b, i) <= |b| && Tile(b, NextEntry(b, i), end, rest)
    requires SizeAllowed(U32(b, i + 20), U32(b, i + 24), limits) && AllSizesAllowed(rest, limits)
    ensures Tile(b, i, end, es) && |es| == 1 + |rest| && AllSizesAllowed(es, limits)
    ensures Sum(es) == U32(b, i + 24) + Sum(rest)
  {
    es := [EntryFrom(b, i)] + rest;
    TileCons(b, i, end, rest);
    assert es[1..] == rest;
    AllowedCons(es, limits);
  }

  lemma {:induction false} WalkFindsTiles(
      b: Bytes, i: nat, end: nat, left: nat, total: nat, limits: Limits, v: Verdict)
    returns (es: seq<Entry>)
    requires i <= end <= |b| && total <= limits.total && Walk(b, i, end, left, total, limits) == v && v.Accepted?
    ensures Tile(b, i, end, es) && |es| == left && AllSizesAllowed(es, limits)
    ensures total + Sum(es) == v.total <= limits.total
    decreases left
  {
    if left == 0 {
      es := WalkEnd(b, i, end, total, limits, v);
    } else {
      WalkRest(b, i, end, left, total, limits, v);
      var rest := WalkFindsTiles(b, NextEntry(b, i), end, left - 1, total + U32(b, i + 24), limits, v);
      es := TileExtended(b, i, end, rest, limits);
    }
  }

  lemma {:induction false} InspectAccepts(b: Bytes, i: nat, end: nat, es: seq<Entry>, total: nat, limits: Limits)
    requires Tile(b, i, end, es) && |es| > 0 && total + es[0].uncompressed <= limits.total
    requires SizeAllowed(es[0].compressed, es[0].uncompressed, limits)
    ensures Inspect(b, i, end, total, limits) == Accepted(1, es[0].uncompressed)
    ensures i + 46 <= end && NextEntry(b, i) <= end && Tile(b, NextEntry(b, i), end, es[1..])
  {
    TileFirst(b, i, end, es);
  }

  lemma AllowedRest(es: seq<Entry>, limits: Limits)
    requires |es| > 0 && AllSizesAllowed(es, limits)
    ensures SizeAllowed(es[0].compressed, es[0].uncompressed, limits) && AllSizesAllowed(es[1..], limits)
    ensures Sum(es) == es[0].uncompressed + Sum(es[1..])
  {
    assert es[0] in es;
  }

  lemma TileEmpty(b: Bytes, i: nat, end: nat, es: seq<Entry>)
    requires Tile(b, i, end, es) && |es| == 0
    ensures i == end && Sum(es) == 0
  {
  }

  lemma WalkStep(
      b: Bytes, i: nat, next: nat, end: nat, left: nat, total: nat, sum: nat, limits: Limits, v: Verdict)
    requires end <= |b| && sum >= total && Inspect(b, i, end, total, limits) == Accepted(1, sum - total)
    requires i + 46 <= |b| && next == NextEntry(b, i)
    requires Walk(b, next, end, left, sum, limits) == v
    ensures Walk(b, i, end, left + 1, total, limits) == v
  {
  }

  lemma {:induction false} WalkAcceptsTiles(
      b: Bytes, i: nat, end: nat, es: seq<Entry>, left: nat, total: nat, limits: Limits, all: nat)
    requires Tile(b, i, end, es) && |es| == left && AllSizesAllowed(es, limits)
    requires total + Sum(es) == all <= limits.total
    ensures Walk(b, i, end, left, total, limits) == Accepted(0, all)
    decreases left
  {
    if left > 0 {
      var next, sum := FirstAccepted(b, i, end, es, total, limits, all);
      var rest := left - 1;
      WalkAcceptsTiles(b, next, end, es[1..], rest, sum, limits, all);
      WalkStep(b, i, next, end, rest, total, sum, limits, Accepted(0, all));
    } else {
      TileEmpty(b, i, end, es);
    }
  }

  lemma {:induction false} FirstAccepted(b: Bytes, i: nat, end: nat, es: seq<Entry>, total: nat, limits: Limits, all: nat)
    returns (next: nat, sum: nat)
    requires Tile(b, i, end, es) && |es| > 0 && AllSizesAllowed(es, limits) && total + Sum(es) == all <= limits.total
    ensures sum >= total && Inspect(b, i, end, total, limits) == Accepted(1, sum - total)
    ensures i + 46 <= end && next == NextEntry(b, i) <= end && Tile(b, next, end, es[1..]) && AllSizesAllowed(es[1..], limits)
    ensures sum + Sum(es[1..]) == all
  {
    AllowedRest(es, limits);
    InspectAccepts(b, i, end, es, total, limits);
    next, sum := NextEntry(b, i), total + es[0].uncompressed;
  }

  // -------------------------------------------------------- the end record

  /** Section 4.3.16: the last end record a comment can leave room for. */
  ghost predicate LastEnd(b: Bytes, i: nat) {
    i + 22 <= |b| <= i + 22 + NONE16 && U32(b, i) == END_SIGNATURE && NoEndAfter(b, i)
  }

  ghost predicate NoEndAfter(b: Bytes, i: nat) {
    forall j: nat :: i < j && j + 22 <= |b| ==> U32(b, j) != END_SIGNATURE
  }

  /** The end record at i declares the entries es, which tile the directory it points to. */
  ghost predicate Describes(b: Bytes, i: nat, es: seq<Entry>) {
    i + 22 <= |b| && |es| < NONE16 && FourWords(b, i + 4, 0, 0, |es|, |es|) &&
    U32(b, i + 12) < NONE32 && U32(b, i + 16) < NONE32 && i + 22 + U16(b, i + 20) <= |b| &&
    U32(b, i + 16) + U32(b, i + 12) <= i && Tile(b, U32(b, i + 16), U32(b, i + 16) + U32(b, i + 12), es)
  }

  lemma {:induction false} ScanIsLast(b: Bytes, offset: int)
    requires offset + 22 <= |b| && (forall j: nat :: offset < j && j + 22 <= |b| ==> U32(b, j) != END_SIGNATURE)
    ensures var i := ScanBack(b, offset); i >= 0 ==> LastEnd(b, i)
    decreases offset + 1
  {
    if offset >= 0 && offset >= |b| - 22 - NONE16 && U32(b, offset) != END_SIGNATURE {
      ScanIsLast(b, offset - 1);
    }
  }

  lemma {:induction false} ScanFinds(b: Bytes, offset: int, i: nat)
    requires LastEnd(b, i) && i <= offset <= |b| - 22
    ensures ScanBack(b, offset) == i
    decreases offset
  {
    if i < offset {
      ScanFinds(b, offset - 1, i);
    }
  }

  lemma EndAccepted(b: Bytes, i: nat, es: seq<Entry>, limits: Limits)
    requires Describes(b, i, es) && |es| <= limits.entries
    ensures InspectEnd(b, i, limits) == Accepted(|es|, 0)
  {
    assert FourWords(b, i + 4, 0, 0, |es|, |es|);
  }

  lemma VerifyStep(b: Bytes, i: nat, limits: Limits, n: nat, w: Verdict)
    requires i + 22 <= |b| && InspectEnd(b, i, limits) == Accepted(n, 0) && w.Accepted?
    requires Walk(b, U32(b, i + 16), U32(b, i + 16) + U32(b, i + 12), n, 0, limits) == w
    ensures VerifyAt(b, i, limits) == Accepted(n, w.total)
  {
  }

  lemma DescribedWalk(b: Bytes, i: nat, n: nat, es: seq<Entry>, limits: Limits) returns (w: Verdict)
    requires Describes(b, i, es) && Allowed(es, limits) && n == |es|
    ensures w == Walk(b, U32(b, i + 16), U32(b, i + 16) + U32(b, i + 12), n, 0, limits) && w == Accepted(0, Sum(es))
  {
    w := Accepted(0, Sum(es));
    WalkAcceptsTiles(b, U32(b, i + 16), U32(b, i + 16) + U32(b, i + 12), es, n, 0, limits, Sum(es));
  }

  lemma {:induction false} DescribedAccepted(b: Bytes, i: nat, es: seq<Entry>, limits: Limits)
    requires Describes(b, i, es) && Allowed(es, limits)
    ensures VerifyAt(b, i, limits) == Accepted(|es|, Sum(es))
  {
    EndAccepted(b, i, es, limits);
    var w := DescribedWalk(b, i, |es|, es, limits);
    VerifyStep(b, i, limits, |es|, w);
  }

  lemma {:induction false} AcceptedDescribed(b: Bytes, i: nat, limits: Limits) returns (es: seq<Entry>)
    requires i + 22 <= |b| && VerifyAt(b, i, limits).Accepted?
    ensures Describes(b, i, es) && Allowed(es, limits) && VerifyAt(b, i, limits) == Accepted(|es|, Sum(es))
  {
    var offset, size := U32(b, i + 16), U32(b, i + 12);
    U32Small(b, i + 16);
    U32Small(b, i + 12);
    U16Small(b, i + 10);
    var w := Walk(b, offset, offset + size, U16(b, i + 10), 0, limits);
    es := WalkFindsTiles(b, offset, offset + size, U16(b, i + 10), 0, limits, w);
  }

  lemma VerifyUsesLastEnd(b: Bytes, limits: Limits, i: nat)
    requires LastEnd(b, i)
    ensures Verify(b, limits) == VerifyAt(b, i, limits)
  {
    ScanFinds(b, |b| - 22, i);
  }

  lemma VerifyFindsLastEnd(b: Bytes, limits: Limits) returns (i: nat)
    requires Verify(b, limits).Accepted?
    ensures LastEnd(b, i) && Verify(b, limits) == VerifyAt(b, i, limits)
  {
    ScanIsLast(b, |b| - 22);
    i := ScanBack(b, |b| - 22);
  }

  /** The check accepts with a count and a sum exactly when the last end record declares
      that many entries, they tile the directory, and all of them are within the limits. */
  lemma AcceptsExactly(b: Bytes, limits: Limits, entries: nat, total: nat)
    ensures Verify(b, limits) == Accepted(entries, total) <==> exists i: nat, es ::
      LastEnd(b, i) && Describes(b, i, es) && Allowed(es, limits) && |es| == entries && Sum(es) == total
  {
    if Verify(b, limits) == Accepted(entries, total) {
      var i := VerifyFindsLastEnd(b, limits);
      var es := AcceptedDescribed(b, i, limits);
    }
    forall i: nat, es | LastEnd(b, i) && Describes(b, i, es) && Allowed(es, limits)
      ensures Verify(b, limits) == Accepted(|es|, Sum(es))
    {
      VerifyUsesLastEnd(b, limits, i);
      DescribedAccepted(b, i, es, limits);
    }
  }

  /** Two readings of one directory with as many entries agree on the sizes. */
  lemma {:induction false} TilesAgree(b: Bytes, i: nat, end: nat, es: seq<Entry>, fs: seq<Entry>, limits: Limits)
    requires Tile(b, i, end, es) && Tile(b, i, end, fs) && |es| == |fs|
    ensures Sum(es) == Sum(fs) && (AllSizesAllowed(fs, limits) ==> AllSizesAllowed(es, limits))
    decreases |es|
  {
    if |es| > 0 {
      TileFirst(b, i, end, es);
      TileFirst(b, i, end, fs);
      TilesAgree(b, NextEntry(b, i), end, es[1..], fs[1..], limits);
      if AllSizesAllowed(fs, limits) {
        AllowedRest(fs, limits);
        AllowedCons(es, limits);
      }
    }
  }

  lemma DescribedRejected(b: Bytes, i: nat, es: seq<Entry>, limits: Limits)
    requires Describes(b, i, es) && !Allowed(es, limits)
    ensures VerifyAt(b, i, limits).Rejected?
  {
    if VerifyAt(b, i, limits).Accepted? {
      var fs := AcceptedDescribed(b, i, limits);
      TilesAgree(b, U32(b, i + 16), U32(b, i + 16) + U32(b, i + 12), es, fs, limits);
    }
  }

  /** The scan stops at an end record exactly when no later end signature follows it. */
  lemma EndFound(b: Bytes, i: nat)
    requires i + 22 <= |b| <= i + 22 + NONE16 && U32(b, i) == END_SIGNATURE
    ensures ScanBack(b, |b| - 22) == i <==> NoEndAfter(b, i)
  {
    ScanIsLast(b, |b| - 22);
    if NoEndAfter(b, i) {
      ScanFinds(b, |b| - 22, i);
    }
  }

  // ---------------------------------------------------------- written archives

  predicate Countable(es: seq<Entry>, size: nat, offset: nat, comment: Bytes) {
    |es| < NONE16 && size < NONE32 && offset < NONE32 && |comment| <= NONE16
  }

  function EndRecord(entries: nat, size: nat, offset: nat, comment: Bytes): (w: Bytes)
    requires entries <= NONE16 && size <= NONE32 && offset <= NONE32 && |comment| <= NONE16
    ensures |w| == 22 + |comment|
  {
    Word32(END_SIGNATURE) + (Words(0, 0, entries, entries) + (Sizes(size, offset) + (Word16(|comment|) + comment)))
  }

  /** Local files, then the central directory, then the end record. */
  function Archive(files: Bytes, es: seq<Entry>, comment: Bytes): Bytes
    requires AllEncodable(es) && Countable(es, |EncodeAll(es)|, |files|, comment)
  {
    files + (EncodeAll(es) + EndRecord(|es|, |EncodeAll(es)|, |files|, comment))
  }

  lemma EndRecordAt(b: Bytes, i: nat, entries: nat, size: nat, offset: nat, comment: Bytes)
    requires entries <= NONE16 && size <= NONE32 && offset <= NONE32 && |comment| <= NONE16
    requires At(b, i, |b|, EndRecord(entries, size, offset, comment))
    ensures |b| == i + 22 + |comment| && U32(b, i) == END_SIGNATURE && FourWords(b, i + 4, 0, 0, entries, entries)
    ensures U32(b, i + 12) == size && U32(b, i + 16) == offset && U16(b, i + 20) == |comment|
  {
    var words, sizes, length := Words(0, 0, entries, entries), Sizes(size, offset), Word16(|comment|);
    AtConcat(b, i, |b|, Word32(END_SIGNATURE), words + (sizes + (length + comment)));
    AtConcat(b, i + 4, |b|, words, sizes + (length + comment));
    AtConcat(b, i + 12, |b|, sizes, length + comment);
    AtConcat(b, i + 20, |b|, length, comment);
    Word32At(b, i, END_SIGNATURE);
    WordsAt(b, i + 4, 0, 0, entries, entries);
    SizesAt(b, i + 12, size, offset);
    Word16At(b, i + 20, |comment|);
  }

  lemma EndRecordDescribes(b: Bytes, i: nat, offset: nat, es: seq<Entry>, comment: Bytes)
    requires AllEncodable(es) && Countable(es, |EncodeAll(es)|, offset, comment)
    requires At(b, offset, i, EncodeAll(es)) && At(b, i, |b|, EndRecord(|es|, |EncodeAll(es)|, offset, comment))
    ensures |b| == i + 22 + |comment| && U32(b, i) == END_SIGNATURE && Describes(b, i, es)
  {
    EndRecordAt(b, i, |es|, |EncodeAll(es)|, offset, comment);
  }

  lemma ArchiveDescribes(files: Bytes, es: seq<Entry>, comment: Bytes) returns (b: Bytes, i: nat)
    requires AllEncodable(es) && Countable(es, |EncodeAll(es)|, |files|, comment)
    ensures b == Archive(files, es, comment) && i == |files| + |EncodeAll(es)|
    ensures |b| == i + 22 + |comment| && U32(b, i) == END_SIGNATURE && Describes(b, i, es)
  {
    b, i := Archive(files, es, comment), |files| + |EncodeAll(es)|;
    var end := EndRecord(|es|, |EncodeAll(es)|, |files|, comment);
    assert b[0..|b|] == b;
    AtConcat(b, 0, |b|, files, EncodeAll(es) + end);
    AtConcat(b, |files|, |b|, EncodeAll(es), end);
    EndRecordDescribes(b, i, |files|, es, comment);
  }

  /** A written archive is read at its own end record exactly when no later end signature
      stands in its comment. */
  lemma ArchiveFound(files: Bytes, es: seq<Entry>, comment: Bytes) returns (b: Bytes, i: nat)
    requires AllEncodable(es) && Countable(es, |EncodeAll(es)|, |files|, comment)
    ensures b == Archive(files, es, comment) && i == |files| + |EncodeAll(es)|
    ensures i + 22 <= |b| && (ScanBack(b, |b| - 22) == i <==> NoEndAfter(b, i))
  {
    b, i := ArchiveDescribes(files, es, comment);
    EndFound(b, i);
  }

  /** Such an archive is accepted, with its own count and sum, exactly when within limits. */
  lemma {:induction false} ArchiveAccepted(files: Bytes, es: seq<Entry>, comment: Bytes, limits: Limits)
    requires AllEncodable(es) && Countable(es, |EncodeAll(es)|, |files|, comment)
    requires NoEndAfter(Archive(files, es, comment), |files| + |EncodeAll(es)|)
    ensures var v := Verify(Archive(files, es, comment), limits);
      if Allowed(es, limits) then v == Accepted(|es|, Sum(es)) else v.Rejected?
  {
    var b, i := ArchiveDescribes(files, es, comment);
    VerifyUsesLastEnd(b, limits, i);
    if Allowed(es, limits) {
      DescribedAccepted(b, i, es, limits);
    } else {
      DescribedRejected(b, i, es, limits);
    }
  }

  /** With an empty comment nothing can stand after the end record. */
  lemma {:induction false} EmptyCommentAccepted(files: Bytes, es: seq<Entry>, comment: Bytes, limits: Limits)
    requires AllEncodable(es) && Countable(es, |EncodeAll(es)|, |files|, comment)
    requires |comment| == 0 && Allowed(es, limits)
    ensures Verify(Archive(files, es, comment), limits) == Accepted(|es|, Sum(es))
  {
    var b, i := ArchiveDescribes(files, es, comment);
    ArchiveAccepted(files, es, comment, limits);
  }

  lemma EmptyEndDescribes(b: Bytes, i: nat)
    requires At(b, i, |b|, EndRecord(0, 0, 0, []))
    ensures LastEnd(b, i) && Describes(b, i, [])
  {
    EndRecordAt(b, i, 0, 0, 0, []);
  }

  lemma ArchiveEndsInComment(files: Bytes, es: seq<Entry>, comment: Bytes)
    requires AllEncodable(es) && Countable(es, |EncodeAll(es)|, |files|, comment)
    ensures var b := Archive(files, es, comment); |comment| <= |b| && At(b, |b| - |comment|, |b|, comment)
  {
    var n, size := |es|, |EncodeAll(es)|;
    var front := Word32(END_SIGNATURE) + (Words(0, 0, n, n) + (Sizes(size, |files|) + Word16(|comment|)));
    var middle := Sizes(size, |files|) + (Word16(|comment|) + comment);
    Assoc(Sizes(size, |files|), Word16(|comment|), comment);
    Assoc(Words(0, 0, n, n), Sizes(size, |files|) + Word16(|comment|), comment);
    Assoc(Word32(END_SIGNATURE), Words(0, 0, n, n) + (Sizes(size, |files|) + Word16(|comment|)), comment);
    assert EndRecord(n, size, |files|, comment) == front + comment;
    Assoc(EncodeAll(es), front, comment);
    Assoc(files, EncodeAll(es) + front, comment);
    EndsIn(files + (EncodeAll(es) + front), comment);
  }

  lemma EndsIn(a: Bytes, c: Bytes)
    ensures At(a + c, |a|, |a + c|, c)
  {
  }

  lemma EmptyEndAccepted(b: Bytes, i: nat, limits: Limits)
    requires At(b, i, |b|, EndRecord(0, 0, 0, []))
    ensures |b| == i + 22 && Verify(b, limits) == Accepted(0, 0) && ScanBack(b, |b| - 22) == i
  {
    EmptyEndDescribes(b, i);
    VerifyUsesLastEnd(b, limits, i);
    ScanFinds(b, |b| - 22, i);
    DescribedAccepted(b, i, [], limits);
  }

  /** An archive whose comment is an empty end record passes as an empty archive, whatever
      its own entries are: the scan stops in the comment. */
  lemma NestedEndHidesArchive(files: Bytes, es: seq<Entry>, limits: Limits)
    requires AllEncodable(es) && Countable(es, |EncodeAll(es)|, |files|, EndRecord(0, 0, 0, []))
    ensures var b := Archive(files, es, EndRecord(0, 0, 0, []));
      Verify(b, limits) == Accepted(0, 0) && ScanBack(b, |b| - 22) == |b| - 22 > |files| + |EncodeAll(es)|
  {
    var comment := EndRecord(0, 0, 0, []);
    var b := Archive(files, es, comment);
    ArchiveEndsInComment(files, es, comment);
    EmptyEndAccepted(b, |b| - 22, limits);
  }

  // ------------------------------------------------------- bytes as published

  /** Words are little-endian. */
  lemma WordBytes(b: Bytes)
    requires |b| == 4
    ensures U16(b, 0) == b[0] as int + 0x100 * b[1] as int
    ensures U32(b, 0) == b[0] as int + 0x100 * b[1] as int + 0x1_0000 * b[2] as int + 0x100_0000 * b[3] as int
  {
  }

  /** Where a central directory header keeps its fields: section 4.3.12. */
  lemma EntryLayout(e: Entry)
    requires Encodable(e)
    ensures var w := Encode(e);
      && w[0] == 0x50 && w[1] == 0x4b && w[2] == 1 && w[3] == 2
      && U32(w, 20) == e.compressed && U32(w, 24) == e.uncompressed
      && U16(w, 28) == |e.name| && U16(w, 30) == |e.extra| && U16(w, 32) == |e.comment| && U16(w, 34) == 0
      && w[46..] == e.name + (e.extra + e.comment)
  {
    var w := Encode(e);
    assert w[0..|w|] == w;
    EntryAt(w, 0, |w|, e);
    Word32At(w, 0, ENTRY_SIGNATURE);
    SignatureBytes(w, ENTRY_SIGNATURE);
  }

  lemma SignatureBytes(b: Bytes, n: nat)
    requires |b| >= 4 && n < 0x1_0000_0000 && U32(b, 0) == n
    ensures b[0] as int == n % 256 && b[1] as int == n / 0x100 % 256
    ensures b[2] as int == n / 0x1_0000 % 256 && b[3] as int == n / 0x100_0000
  {
  }

  /** Where the end record keeps its fields: section 4.3.16. */
  lemma EndLayout(entries: nat, size: nat, offset: nat, comment: Bytes)
    requires entries <= NONE16 && size <= NONE32 && offset <= NONE32 && |comment| <= NONE16
    ensures var w := EndRecord(entries, size, offset, comment);
      && w[0] == 0x50 && w[1] == 0x4b && w[2] == 5 && w[3] == 6
      && U16(w, 4) == 0 && U16(w, 6) == 0 && U16(w, 8) == entries && U16(w, 10) == entries
      && U32(w, 12) == size && U32(w, 16) == offset && U16(w, 20) == |comment| && w[22..] == comment
  {
    var w := EndRecord(entries, size, offset, comment);
    assert w[0..|w|] == w;
    EndRecordAt(w, 0, entries, size, offset, comment);
    SignatureBytes(w, END_SIGNATURE);
  }

  /** The limits of the pre-check: 5000 entries, 128 MiB in all, 32 MiB each, ratio 200. */
  lemma OfficeLimits(es: seq<Entry>)
    ensures Allowed(es, OFFICE_LIMITS) <==>
      && |es| <= 5000 && Sum(es) <= 0x800_0000
      && forall e <- es ::
           e.compressed != 0xffff_ffff && e.uncompressed <= 0x200_0000 &&
           (e.uncompressed > 0 ==> e.compressed > 0 && e.uncompressed <= 200 * e.compressed)
  {
    forall e <- es ensures Times(200, e.compressed) == 200 * e.compressed {
      TimesIsProduct(200, e.compressed);
    }
  }
}
