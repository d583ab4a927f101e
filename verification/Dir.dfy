/** Directories of the ext2 file system: fs/ext2/dir.c.

    A directory block is a run of bytes. Each record starts with the inode number (four bytes, low byte first), the
    length of the record (two bytes), the length of the name and the type of the file (one byte each), and the name
    follows. A record with inode number zero is empty, and the bytes between a name and the end of its record are slack.
 */
module Dir {
  import opened Errno

  type Byte = x: nat | x < 256

  const BLOCK: nat := 4096
  const HEADER: nat := 8
  const UINT32: nat := 0x1_0000_0000

  // ---------------------------------------------------------------------------------------------------------------
  // Records
  // ---------------------------------------------------------------------------------------------------------------

  function U16(b: seq<Byte>, off: nat): (r: nat)
    requires off + 2 <= |b|
  {
    b[off] as nat + 0x100 * b[off + 1] as nat
  }

  function U32(b: seq<Byte>, off: nat): (r: nat)
    requires off + 4 <= |b|
  {
    b[off] as nat + 0x100 * b[off + 1] as nat + 0x1_0000 * b[off + 2] as nat + 0x100_0000 * b[off + 3] as nat
  }

  function Ino(b: seq<Byte>, off: nat): nat
    requires off + HEADER <= |b|
  {
    U32(b, off)
  }

  function RecLen(b: seq<Byte>, off: nat): nat
    requires off + HEADER <= |b|
  {
    U16(b, off + 4)
  }

  function NameLen(b: seq<Byte>, off: nat): nat
    requires off + HEADER <= |b|
  {
    b[off + 6]
  }

  function Kind(b: seq<Byte>, off: nat): Byte
    requires off + HEADER <= |b|
  {
    b[off + 7]
  }

  function Name(b: seq<Byte>, off: nat): seq<Byte>
    requires off + HEADER <= |b| && off + HEADER + NameLen(b, off) <= |b|
  {
    b[off + HEADER..off + HEADER + NameLen(b, off)]
  }

  predicate Aligned(n: nat) {
    n % 4 == 0
  }

  /** The space a record with a name of n bytes needs. */
  function Need(n: nat): (r: nat)
    ensures HEADER + n <= r < HEADER + n + 4 && Aligned(r)
  {
    (HEADER + n + 3) / 4 * 4
  }

  /** ext2_get_dirent accepts the record at off. */
  predicate Sound(b: seq<Byte>, off: nat, end: nat, inodes: nat)
    requires end <= |b|
  {
    && off + HEADER <= end
    && HEADER <= RecLen(b, off) <= end - off && Aligned(RecLen(b, off))
    && NameLen(b, off) <= RecLen(b, off) - HEADER
    && Ino(b, off) <= inodes
  }

  datatype Entry = Entry(ino: nat, kind: Byte, name: seq<Byte>)

  /** What the record at off contributes to the directory. */
  ghost function One(b: seq<Byte>, off: nat): seq<Entry>
    requires off + HEADER <= |b| && off + HEADER + NameLen(b, off) <= |b|
  {
    if Ino(b, off) == 0 then [] else [Entry(Ino(b, off), Kind(b, off), Name(b, off))]
  }

  /** Sound records fill the bytes between lo and hi, without a gap. */
  ghost predicate Tiles(b: seq<Byte>, lo: nat, hi: nat, inodes: nat)
    requires lo <= hi <= |b|
    decreases hi - lo
  {
    lo == hi || (Sound(b, lo, hi, inodes) && Tiles(b, lo + RecLen(b, lo), hi, inodes))
  }

  ghost function Live(b: seq<Byte>, lo: nat, hi: nat, inodes: nat): seq<Entry>
    requires lo <= hi <= |b| && Tiles(b, lo, hi, inodes)
    decreases hi - lo
  {
    if lo == hi then [] else One(b, lo) + Live(b, lo + RecLen(b, lo), hi, inodes)
  }

  ghost predicate Same(b: seq<Byte>, c: seq<Byte>, lo: nat, hi: nat) {
    && lo <= hi <= |b| && hi <= |c|
    && forall i: nat :: lo <= i < hi ==> b[i] == c[i]
  }

  lemma SoundStep(b: seq<Byte>, off: nat, end: nat, wider: nat, inodes: nat)
    requires end <= wider <= |b| && Sound(b, off, end, inodes)
    ensures off + HEADER <= off + RecLen(b, off) <= end && off + HEADER + NameLen(b, off) <= |b|
    ensures Sound(b, off, wider, inodes) && Sound(b, off, off + RecLen(b, off), inodes)
  {
  }

  /** A record is determined by its bytes. */
  lemma SoundSame(b: seq<Byte>, c: seq<Byte>, off: nat, end: nat, inodes: nat)
    requires end <= |b| && Sound(b, off, end, inodes) && end <= |c|
    requires Same(b, c, off, off + RecLen(b, off))
    ensures Sound(c, off, end, inodes) && RecLen(c, off) == RecLen(b, off) && One(c, off) == One(b, off)
  {
    assert Name(b, off) == Name(c, off);
  }

  /** All but the length of a record. */
  lemma HeadSame(b: seq<Byte>, c: seq<Byte>, p: nat)
    requires p + HEADER <= |b| && p + HEADER + NameLen(b, p) <= |b|
    requires Same(b, c, p, p + 4) && Same(b, c, p + 6, p + HEADER + NameLen(b, p))
    ensures Ino(c, p) == Ino(b, p) && NameLen(c, p) == NameLen(b, p) && One(c, p) == One(b, p)
  {
    assert Name(c, p) == Name(b, p);
  }

  lemma {:induction false} TilesSame(b: seq<Byte>, c: seq<Byte>, lo: nat, hi: nat, inodes: nat)
    requires Same(b, c, lo, hi) && Tiles(b, lo, hi, inodes)
    ensures Tiles(c, lo, hi, inodes) && Live(c, lo, hi, inodes) == Live(b, lo, hi, inodes)
    decreases hi - lo
  {
    hide Sound, One, RecLen, NameLen;
    if lo < hi {
      SoundStep(b, lo, hi, hi, inodes);
      assert Same(b, c, lo, lo + RecLen(b, lo)) && Same(b, c, lo + RecLen(b, lo), hi);
      SoundSame(b, c, lo, hi, inodes);
      TilesSame(b, c, lo + RecLen(b, lo), hi, inodes);
    }
  }

  lemma {:induction false} TilesJoin(b: seq<Byte>, p: nat, q: nat, r: nat, inodes: nat)
    requires p <= q <= r <= |b| && Tiles(b, p, q, inodes) && Tiles(b, q, r, inodes)
    ensures Tiles(b, p, r, inodes) && Live(b, p, r, inodes) == Live(b, p, q, inodes) + Live(b, q, r, inodes)
    decreases q - p
  {
    hide Sound, One, RecLen, NameLen;
    if p < q {
      SoundStep(b, p, q, r, inodes);
      TilesJoin(b, p + RecLen(b, p), q, r, inodes);
    }
  }

  /** Two walks from the same place pass the same records. */
  lemma {:induction false} TilesSplit(b: seq<Byte>, p: nat, q: nat, r: nat, inodes: nat)
    requires p <= q <= r <= |b| && Tiles(b, p, q, inodes) && Tiles(b, p, r, inodes)
    ensures Tiles(b, q, r, inodes) && Live(b, p, r, inodes) == Live(b, p, q, inodes) + Live(b, q, r, inodes)
    decreases q - p
  {
    hide Sound, One, RecLen, NameLen;
    if p < q {
      SoundStep(b, p, q, r, inodes);
      TilesSplit(b, p + RecLen(b, p), q, r, inodes);
    }
  }

  lemma TileOne(b: seq<Byte>, p: nat, q: nat, inodes: nat)
    requires p < q <= |b| && Sound(b, p, q, inodes) && RecLen(b, p) == q - p
    ensures Tiles(b, p, q, inodes) && Live(b, p, q, inodes) == One(b, p)
  {
    assert Tiles(b, q, q, inodes);
  }

  /** One more record of a walk. */
  lemma TilesNext(b: seq<Byte>, lo: nat, p: nat, end: nat, inodes: nat)
    requires lo <= p < end <= |b| && Tiles(b, lo, p, inodes) && Sound(b, p, end, inodes)
    ensures p + RecLen(b, p) <= end && Tiles(b, lo, p + RecLen(b, p), inodes)
    ensures Live(b, lo, p + RecLen(b, p), inodes) == Live(b, lo, p, inodes) + One(b, p)
  {
    assert p + HEADER <= |b|;
    hide Sound, One, RecLen, NameLen, Tiles, Live;
    var q := p + RecLen(b, p);
    SoundStep(b, p, end, end, inodes);
    TileOne(b, p, q, inodes);
    TilesJoin(b, lo, p, q, inodes);
  }

  // ---------------------------------------------------------------------------------------------------------------
  // Search
  // ---------------------------------------------------------------------------------------------------------------

  ghost predicate Absent(es: seq<Entry>, name: seq<Byte>) {
    forall i: nat :: i < |es| ==> es[i].name != name
  }

  predicate Matches(b: seq<Byte>, off: nat, end: nat, inodes: nat, name: seq<Byte>)
    requires end <= |b|
  {
    Sound(b, off, end, inodes) && Ino(b, off) != 0 && Name(b, off) == name
  }

  /** The walk from the start arrives at off without meeting the name. */
  ghost predicate Passed(b: seq<Byte>, off: nat, inodes: nat, name: seq<Byte>)
    requires off <= |b|
  {
    Tiles(b, 0, off, inodes) && Absent(Live(b, 0, off, inodes), name)
  }

  lemma PassNext(b: seq<Byte>, p: nat, end: nat, inodes: nat, name: seq<Byte>)
    requires end <= |b| && p < end && Passed(b, p, inodes, name)
    requires Sound(b, p, end, inodes) && !Matches(b, p, end, inodes, name)
    ensures p + RecLen(b, p) <= end && Passed(b, p + RecLen(b, p), inodes, name)
  {
    TilesNext(b, 0, p, end, inodes);
  }

  /** What a search of a block may answer; `at` is where it stopped. */
  ghost predicate FindAnswer(b: seq<Byte>, end: nat, inodes: nat, name: seq<Byte>, at: nat, r: Result<nat>)
    requires end <= |b|
  {
    && at <= end && Passed(b, at, inodes, name)
    && match r
       case Ok(off) => off == at < end && Matches(b, at, end, inodes, name)
       case Err(e) => (e == ENOENT && at == end) || (e == EUCLEAN && at < end && !Sound(b, at, end, inodes))
  }

  /** ext2_find_dirent_block. */
  method FindBlock(buf: array<Byte>, end: nat, inodes: nat, name: seq<Byte>) returns (r: Result<nat>, ghost at: nat)
    requires end <= buf.Length
    ensures FindAnswer(buf[..], end, inodes, name, at, r)
  {
    var off := 0;
    ghost var b := buf[..];
    while off < end
      invariant off <= end && Passed(b, off, inodes, name)
    {
      if !Sound(buf[..], off, end, inodes) {
        return Err(EUCLEAN), off;
      }
      if Ino(buf[..], off) != 0 && Name(buf[..], off) == name {
        return Ok(off), off;
      }
      PassNext(b, off, end, inodes, name);
      off := off + RecLen(buf[..], off);
    }
    return Err(ENOENT), off;
  }

  /** In a block that is tiled, the search finds a name exactly if a live record bears it, and never reports damage. */
  lemma FindAgrees(b: seq<Byte>, end: nat, inodes: nat, name: seq<Byte>, at: nat, r: Result<nat>)
    requires end <= |b| && Tiles(b, 0, end, inodes) && FindAnswer(b, end, inodes, name, at, r)
    ensures r.Ok? <==> !Absent(Live(b, 0, end, inodes), name)
    ensures r.Ok? ==>
      exists i: nat :: i < |Live(b, 0, end, inodes)| && Live(b, 0, end, inodes)[i].name == name
        && Live(b, 0, end, inodes)[i].ino == Ino(b, r.value) && Absent(Live(b, 0, end, inodes)[..i], name)
    ensures r.Err? ==> r.error == ENOENT
  {
    TilesSplit(b, 0, at, end, inodes);
    if at < end {
      var before, rest := Live(b, 0, at, inodes), Live(b, at, end, inodes);
      var all := Live(b, 0, end, inodes);
      assert all == before + rest;
      if r.Ok? {
        assert rest == One(b, at) + Live(b, at + RecLen(b, at), end, inodes);
        assert all[|before|] == One(b, at)[0];
        assert all[..|before|] == before;
      }
    }
  }

  // ---------------------------------------------------------------------------------------------------------------
  // Writing records
  // ---------------------------------------------------------------------------------------------------------------

  /** b and c agree outside the bytes between lo and hi. */
  ghost predicate Patched(b: seq<Byte>, c: seq<Byte>, lo: nat, hi: nat) {
    |b| == |c| && hi <= |b| && Same(b, c, 0, lo) && Same(b, c, hi, |b|)
  }

  method Put16(buf: array<Byte>, off: nat, v: nat)
    requires off + 2 <= buf.Length && v < 0x1_0000
    modifies buf
    ensures U16(buf[..], off) == v && Patched(old(buf[..]), buf[..], off, off + 2)
  {
    buf[off], buf[off + 1] := v % 0x100, v / 0x100;
  }

  lemma Digits(v: nat)
    requires v < UINT32
    ensures v == v % 0x100 + 0x100 * (v / 0x100 % 0x100) + 0x1_0000 * (v / 0x1_0000 % 0x100)
                 + 0x100_0000 * (v / 0x100_0000)
    ensures v / 0x100_0000 < 0x100
  {
  }

  method Put32(buf: array<Byte>, off: nat, v: nat)
    requires off + 4 <= buf.Length && v < UINT32
    modifies buf
    ensures U32(buf[..], off) == v && Patched(old(buf[..]), buf[..], off, off + 4)
  {
    Digits(v);
    var b0, b1, b2, b3 := v % 0x100, v / 0x100 % 0x100, v / 0x1_0000 % 0x100, v / 0x100_0000;
    buf[off], buf[off + 1], buf[off + 2], buf[off + 3] := b0, b1, b2, b3;
  }

  method PutBytes(buf: array<Byte>, off: nat, bytes: seq<Byte>)
    requires off + |bytes| <= buf.Length
    modifies buf
    ensures buf[off..off + |bytes|] == bytes && Patched(old(buf[..]), buf[..], off, off + |bytes|)
  {
    forall i | 0 <= i < |bytes| {
      buf[off + i] := bytes[i];
    }
  }

  /** The record at off reads back as these values. */
  ghost predicate Reads(b: seq<Byte>, off: nat, len: nat, e: Entry) {
    && off + HEADER + |e.name| <= |b|
    && Ino(b, off) == e.ino && RecLen(b, off) == len && NameLen(b, off) == |e.name| && Kind(b, off) == e.kind
    && Name(b, off) == e.name
  }

  lemma ReadsTile(c: seq<Byte>, p: nat, len: nat, e: Entry, inodes: nat)
    requires Reads(c, p, len, e) && 0 < e.ino <= inodes && HEADER + |e.name| <= len && Aligned(len) && p + len <= |c|
    ensures Tiles(c, p, p + len, inodes) && Live(c, p, p + len, inodes) == [e]
  {
    assert Sound(c, p, p + len, inodes) && One(c, p) == [e] && RecLen(c, p) == len;
    hide Sound, Reads, One, RecLen;
    TileOne(c, p, p + len, inodes);
  }

  method PutRecord(buf: array<Byte>, off: nat, len: nat, e: Entry)
    requires off + HEADER + |e.name| <= buf.Length
    requires e.ino < UINT32 && len < 0x1_0000 && |e.name| < 0x100
    modifies buf
    ensures Reads(buf[..], off, len, e) && Patched(old(buf[..]), buf[..], off, off + HEADER + |e.name|)
  {
    Put32(buf, off, e.ino);
    Put16(buf, off + 4, len);
    buf[off + 6], buf[off + 7] := |e.name|, e.kind;
    PutBytes(buf, off + HEADER, e.name);
  }

  // ---------------------------------------------------------------------------------------------------------------
  // Insertion
  // ---------------------------------------------------------------------------------------------------------------

  /** The part of a record that its header and name take up; none of it in an empty record. */
  function Used(b: seq<Byte>, off: nat): nat
    requires off + HEADER <= |b|
  {
    if Ino(b, off) == 0 then 0 else Need(NameLen(b, off))
  }

  lemma UsedFits(b: seq<Byte>, off: nat, end: nat, inodes: nat)
    requires end <= |b| && Sound(b, off, end, inodes)
    ensures Used(b, off) <= RecLen(b, off) && Aligned(RecLen(b, off) - Used(b, off))
  {
  }

  /** No record that starts before hi has the slack for need more bytes. */
  ghost predicate NoRoom(b: seq<Byte>, hi: nat, inodes: nat, need: nat) {
    forall p: nat :: p < hi && p + HEADER <= |b| && Tiles(b, 0, p, inodes) ==> RecLen(b, p) < Used(b, p) + need
  }

  /** There is no record between a record and its successor. */
  lemma NoneBetween(b: seq<Byte>, p: nat, x: nat, end: nat, inodes: nat)
    requires p < x <= end <= |b| && Tiles(b, 0, p, inodes) && Sound(b, p, end, inodes)
    requires Tiles(b, 0, x, inodes)
    ensures p + RecLen(b, p) <= x
  {
    TilesSplit(b, 0, p, x, inodes);
  }

  lemma NoRoomNext(b: seq<Byte>, p: nat, end: nat, inodes: nat, need: nat)
    requires p < end <= |b| && Tiles(b, 0, p, inodes) && Sound(b, p, end, inodes)
    requires NoRoom(b, p, inodes, need) && RecLen(b, p) < Used(b, p) + need
    ensures NoRoom(b, p + RecLen(b, p), inodes, need)
  {
    forall x: nat | x < p + RecLen(b, p) && x + HEADER <= |b| && Tiles(b, 0, x, inodes)
      ensures RecLen(b, x) < Used(b, x) + need
    {
      if p < x {
        NoneBetween(b, p, x, end, inodes);
      }
    }
  }

  /** The bytes of c around the record at p of b after e was put into its slack. */
  ghost predicate Placed(b: seq<Byte>, c: seq<Byte>, p: nat, e: Entry)
    requires p + HEADER <= |b|
  {
    var used, len := Used(b, p), RecLen(b, p);
    && used <= len && |b| == |c|
    && Reads(c, p + used, len - used, e)
    && (used > 0 ==> p + 6 <= |b| && Same(b, c, p, p + 4) && Same(b, c, p + 6, p + used) && U16(c, p + 4) == used)
  }

  lemma PlacedKeeps(b: seq<Byte>, c: seq<Byte>, p: nat, end: nat, inodes: nat, e: Entry)
    requires end <= |b| && Sound(b, p, end, inodes) && Placed(b, c, p, e)
    requires 0 < e.ino <= inodes && RecLen(b, p) - Used(b, p) >= Need(|e.name|)
    ensures Tiles(c, p, p + RecLen(b, p), inodes)
    ensures Live(c, p, p + RecLen(b, p), inodes) == One(b, p) + [e]
  {
    hide Tiles, Live, Sound, One, Reads, RecLen, Used, Need, NameLen, Ino, Aligned, Placed;
    PlacedFacts(b, c, p, end, inodes, e);
    if Used(b, p) > 0 {
      PlacedOld(b, c, p, end, inodes, e);
    } else {
      UnusedEmpty(b, p, end, inodes);
    }
    SlackTile(c, p, Used(b, p), RecLen(b, p), One(b, p), e, inodes);
  }

  lemma PlacedFacts(b: seq<Byte>, c: seq<Byte>, p: nat, end: nat, inodes: nat, e: Entry)
    requires end <= |b| && Sound(b, p, end, inodes) && Placed(b, c, p, e)
    ensures p + HEADER <= p + RecLen(b, p) <= |c| && p + HEADER + NameLen(b, p) <= |b|
    ensures Used(b, p) <= RecLen(b, p) && Aligned(RecLen(b, p) - Used(b, p))
    ensures Reads(c, p + Used(b, p), RecLen(b, p) - Used(b, p), e)
  {
    hide Need, Aligned, Reads, Tiles, Live;
    UsedFits(b, p, end, inodes);
  }

  lemma SlackTile(c: seq<Byte>, p: nat, used: nat, len: nat, es: seq<Entry>, e: Entry, inodes: nat)
    requires used + HEADER + |e.name| <= len && p + len <= |c| && Aligned(len - used)
    requires Reads(c, p + used, len - used, e) && 0 < e.ino <= inodes
    requires used == 0 ==> es == []
    requires used > 0 ==> Tiles(c, p, p + used, inodes) && Live(c, p, p + used, inodes) == es
    ensures Tiles(c, p, p + len, inodes) && Live(c, p, p + len, inodes) == es + [e]
  {
    hide Tiles, Live, Reads, Aligned;
    ReadsTile(c, p + used, len - used, e, inodes);
    if used > 0 {
      TilesJoin(c, p, p + used, p + len, inodes);
    } else {
      assert es + [e] == [e];
    }
  }

  lemma PlacedOld(b: seq<Byte>, c: seq<Byte>, p: nat, end: nat, inodes: nat, e: Entry)
    requires end <= |b| && Sound(b, p, end, inodes) && Placed(b, c, p, e) && Used(b, p) > 0
    ensures p + Used(b, p) <= |c| && Tiles(c, p, p + Used(b, p), inodes)
    ensures Live(c, p, p + Used(b, p), inodes) == One(b, p)
  {
    PlacedHead(b, c, p, end, inodes, e);
    hide Sound, Placed, One, Used, RecLen, Tiles, Live;
    TileOne(c, p, p + Used(b, p), inodes);
  }

  lemma PlacedHead(b: seq<Byte>, c: seq<Byte>, p: nat, end: nat, inodes: nat, e: Entry)
    requires end <= |b| && Sound(b, p, end, inodes) && Placed(b, c, p, e) && Used(b, p) > 0
    ensures HEADER <= Used(b, p) && p + Used(b, p) <= |c| && RecLen(c, p) == Used(b, p)
    ensures Sound(c, p, p + Used(b, p), inodes) && One(c, p) == One(b, p)
  {
    hide U16, U32, Ino, NameLen, One, Kind;
    HeadSame(b, c, p);
  }

  lemma UnusedEmpty(b: seq<Byte>, p: nat, end: nat, inodes: nat)
    requires end <= |b| && Sound(b, p, end, inodes) && Used(b, p) == 0
    ensures One(b, p) == []
  {
  }

  /** What adding e to a block may answer; `at` is the record the walk stopped at. */
  ghost predicate AddAnswer(b: seq<Byte>, c: seq<Byte>, inodes: nat, e: Entry, at: nat, r: Option<Error>)
    requires |b| == BLOCK
  {
    && at <= BLOCK && Tiles(b, 0, at, inodes) && NoRoom(b, at, inodes, Need(|e.name|))
    && match r
       case None =>
         && at < BLOCK && Sound(b, at, BLOCK, inodes) && RecLen(b, at) - Used(b, at) >= Need(|e.name|)
         && Placed(b, c, at, e) && Patched(b, c, at, at + RecLen(b, at))
       case Some(x) =>
         && c == b
         && ((x == ENOSPC && at == BLOCK) || (x == EUCLEAN && at < BLOCK && !Sound(b, at, BLOCK, inodes)))
  }

  /** ext2_add_dirent_block. */
  method AddBlock(buf: array<Byte>, inodes: nat, e: Entry) returns (r: Option<Error>, ghost at: nat)
    requires buf.Length == BLOCK
    requires 0 < e.ino <= inodes < UINT32 && |e.name| < 0x100
    modifies buf
    ensures AddAnswer(old(buf[..]), buf[..], inodes, e, at, r)
  {
    var need, off := Need(|e.name|), 0;
    ghost var b := buf[..];
    assert Tiles(b, 0, 0, inodes) && NoRoom(b, 0, inodes, need);
    hide Tiles, NoRoom, Placed, Reads, Aligned, Need, Live, One;
    while off < BLOCK
      invariant off <= BLOCK && Tiles(b, 0, off, inodes) && NoRoom(b, off, inodes, need)
      invariant buf[..] == b
    {
      if !Sound(buf[..], off, BLOCK, inodes) {
        return Some(EUCLEAN), off;
      }
      var len, used := RecLen(buf[..], off), Used(buf[..], off);
      UsedFits(b, off, BLOCK, inodes);
      if len - used >= need {
        Place(buf, off, len, used, e);
        return None, off;
      }
      TilesNext(b, 0, off, BLOCK, inodes);
      NoRoomNext(b, off, BLOCK, inodes, need);
      off := off + len;
    }
    return Some(ENOSPC), off;
  }

  /** Splits the record at off, or takes it over if it is empty. */
  method Place(buf: array<Byte>, off: nat, len: nat, used: nat, e: Entry)
    requires buf.Length == BLOCK && off + len <= BLOCK && HEADER <= len
    requires len == RecLen(buf[..], off) && used == Used(buf[..], off) && used + Need(|e.name|) <= len
    requires e.ino < UINT32 && |e.name| < 0x100
    modifies buf
    ensures Placed(old(buf[..]), buf[..], off, e) && Patched(old(buf[..]), buf[..], off, off + len)
  {
    var slot := off;
    if used > 0 {
      Put16(buf, off + 4, used);
      slot := off + used;
    }
    PutRecord(buf, slot, len - used, e);
  }

  /** ys is xs with e inserted somewhere. */
  ghost predicate Inserted(xs: seq<Entry>, ys: seq<Entry>, e: Entry) {
    exists k: nat :: k <= |xs| && ys == xs[..k] + [e] + xs[k..]
  }

  /** A successful insertion into a tiled block leaves it tiled, with exactly one more live entry. */
  lemma AddInserts(b: seq<Byte>, c: seq<Byte>, inodes: nat, e: Entry, at: nat)
    requires |b| == BLOCK && AddAnswer(b, c, inodes, e, at, None) && 0 < e.ino <= inodes
    requires Tiles(b, 0, BLOCK, inodes)
    ensures Tiles(c, 0, BLOCK, inodes)
    ensures Inserted(Live(b, 0, BLOCK, inodes), Live(c, 0, BLOCK, inodes), e)
  {
    var q := at + RecLen(b, at);
    SoundStep(b, at, BLOCK, BLOCK, inodes);
    PlacedKeeps(b, c, at, BLOCK, inodes, e);
    assert Same(b, c, 0, at) && Same(b, c, q, BLOCK);
    hide Placed, Sound, One, RecLen, Used, NameLen, Tiles, Live, NoRoom, Need, Same, Inserted;
    TilesNext(b, 0, at, BLOCK, inodes);
    TilesSplit(b, 0, q, BLOCK, inodes);
    TilesSame(b, c, 0, at, inodes);
    TilesSame(b, c, q, BLOCK, inodes);
    TilesJoin(c, 0, at, q, inodes);
    TilesJoin(c, 0, q, BLOCK, inodes);
    Spliced(Live(b, 0, at, inodes), One(b, at), Live(b, q, BLOCK, inodes), e);
  }

  lemma Spliced(xs: seq<Entry>, ys: seq<Entry>, zs: seq<Entry>, e: Entry)
    ensures Inserted(xs + ys + zs, xs + (ys + [e]) + zs, e)
  {
    var all, k := xs + ys + zs, |xs| + |ys|;
    assert all[..k] == xs + ys && all[k..] == zs;
    assert xs + (ys + [e]) + zs == all[..k] + [e] + all[k..];
  }

  /** A full block is reported exactly if no record of a tiled block has the slack, and damage never. */
  lemma AddFails(b: seq<Byte>, c: seq<Byte>, inodes: nat, e: Entry, at: nat, r: Option<Error>)
    requires |b| == BLOCK && AddAnswer(b, c, inodes, e, at, r) && Tiles(b, 0, BLOCK, inodes)
    ensures r == Some(ENOSPC) <==> NoRoom(b, BLOCK, inodes, Need(|e.name|))
    ensures r.Some? ==> r == Some(ENOSPC)
  {
    TilesSplit(b, 0, at, BLOCK, inodes);
  }

  // ---------------------------------------------------------------------------------------------------------------
  // Removal and replacement
  // ---------------------------------------------------------------------------------------------------------------

  /** The records of c up to the one after off are those of b without the one at off; nothing behind them changed. */
  ghost predicate Cut(b: seq<Byte>, c: seq<Byte>, off: nat, inodes: nat)
    requires |b| == |c| == BLOCK && off <= BLOCK && Tiles(b, 0, off, inodes) && Sound(b, off, BLOCK, inodes)
  {
    var q := off + RecLen(b, off);
    Tiles(c, 0, q, inodes) && Live(c, 0, q, inodes) == Live(b, 0, off, inodes) && Same(b, c, q, BLOCK)
  }

  /** An emptied first record. */
  lemma CutFirst(b: seq<Byte>, c: seq<Byte>, inodes: nat)
    requires |b| == |c| == BLOCK && Sound(b, 0, BLOCK, inodes)
    requires Patched(b, c, 0, 4) && Ino(c, 0) == 0
    ensures Tiles(b, 0, 0, inodes) && Cut(b, c, 0, inodes)
  {
    TileOne(c, 0, RecLen(b, 0), inodes);
  }

  /** The bytes of c after the record at off was added to the one at p before it. */
  ghost predicate Merged(b: seq<Byte>, c: seq<Byte>, p: nat, off: nat)
    requires |b| == |c| == BLOCK && p + HEADER <= off && off + HEADER <= BLOCK
  {
    && Same(b, c, 0, p + 4) && Same(b, c, p + 6, off) && Same(b, c, off + 4, BLOCK)
    && U16(c, p + 4) == RecLen(b, p) + RecLen(b, off)
  }

  lemma MergedOne(b: seq<Byte>, c: seq<Byte>, p: nat, off: nat, inodes: nat)
    requires |b| == |c| == BLOCK && p < off < BLOCK && Sound(b, p, off, inodes) && p + RecLen(b, p) == off
    requires Sound(b, off, BLOCK, inodes) && Merged(b, c, p, off)
    ensures Tiles(c, p, off + RecLen(b, off), inodes)
    ensures Live(c, p, off + RecLen(b, off), inodes) == One(b, p)
  {
    MergedHead(b, c, p, off, inodes);
    hide Sound, One, RecLen, NameLen, Merged;
    TileOne(c, p, off + RecLen(b, off), inodes);
  }

  lemma MergedHead(b: seq<Byte>, c: seq<Byte>, p: nat, off: nat, inodes: nat)
    requires |b| == |c| == BLOCK && p < off < BLOCK && Sound(b, p, off, inodes) && p + RecLen(b, p) == off
    requires Sound(b, off, BLOCK, inodes) && Merged(b, c, p, off)
    ensures off + RecLen(b, off) <= BLOCK && RecLen(c, p) == off + RecLen(b, off) - p
    ensures Sound(c, p, off + RecLen(b, off), inodes) && One(c, p) == One(b, p)
  {
    hide U16, U32, Ino, NameLen, One, Kind;
    HeadSame(b, c, p);
  }

  lemma MergedAround(b: seq<Byte>, c: seq<Byte>, p: nat, off: nat, inodes: nat)
    requires |b| == |c| == BLOCK && p < off < BLOCK && Sound(b, p, off, inodes) && Sound(b, off, BLOCK, inodes)
    requires Merged(b, c, p, off)
    ensures off + HEADER <= off + RecLen(b, off) <= BLOCK
    ensures Same(b, c, 0, p) && Same(b, c, off + RecLen(b, off), BLOCK)
  {
  }

  lemma CutMerged(b: seq<Byte>, c: seq<Byte>, p: nat, off: nat, inodes: nat)
    requires |b| == |c| == BLOCK && p < off < BLOCK
    requires Tiles(b, 0, p, inodes) && Sound(b, p, off, inodes) && p + RecLen(b, p) == off
    requires Sound(b, off, BLOCK, inodes) && Merged(b, c, p, off)
    ensures Tiles(b, 0, off, inodes) && Cut(b, c, off, inodes)
  {
    hide Sound, One, Merged, Same, Tiles, Live, RecLen, NameLen;
    MergedAround(b, c, p, off, inodes);
    TilesNext(b, 0, p, off, inodes);
    TilesSame(b, c, 0, p, inodes);
    MergedOne(b, c, p, off, inodes);
    TilesJoin(c, 0, p, off + RecLen(b, off), inodes);
  }

  /** prev is the record before the one at cur. */
  ghost predicate Follows(b: seq<Byte>, prev: Option<nat>, cur: nat, inodes: nat)
    requires cur <= |b|
  {
    && (prev.None? <==> cur == 0)
    && (prev.Some? ==>
          && prev.value < cur && Tiles(b, 0, prev.value, inodes) && Sound(b, prev.value, cur, inodes)
          && prev.value + RecLen(b, prev.value) == cur)
  }

  /** ext2_delete_dirent. The offset is one that a search found. */
  method Delete(buf: array<Byte>, off: nat, inodes: nat)
    requires buf.Length == BLOCK && off < BLOCK && Tiles(buf[..], 0, off, inodes) && Sound(buf[..], off, BLOCK, inodes)
    modifies buf
    ensures Cut(old(buf[..]), buf[..], off, inodes)
  {
    hide Merged, Patched, Cut, Ino, Live;
    ghost var b := buf[..];
    var cur, prev: Option<nat> := 0, None;
    while cur < off
      invariant buf[..] == b
      invariant cur <= off && Tiles(b, 0, cur, inodes) && Tiles(b, cur, off, inodes)
      invariant Follows(b, prev, cur, inodes)
    {
      TilesNext(b, 0, cur, off, inodes);
      prev := Some(cur);
      cur := cur + RecLen(buf[..], cur);
    }
    hide Sound, Tiles;
    Unlink(buf, prev, cur, inodes);
    if prev.Some? {
      CutMerged(b, buf[..], prev.value, off, inodes);
    } else {
      CutFirst(b, buf[..], inodes);
    }
  }

  /** Gives the record at cur to the one before it, if there is one, and marks it empty. */
  method Unlink(buf: array<Byte>, prev: Option<nat>, cur: nat, inodes: nat)
    requires buf.Length == BLOCK && cur < BLOCK && Sound(buf[..], cur, BLOCK, inodes)
    requires prev.Some? ==> prev.value < cur && Sound(buf[..], prev.value, cur, inodes)
    requires prev.Some? ==> prev.value + RecLen(buf[..], prev.value) == cur
    modifies buf
    ensures prev.Some? ==> Merged(old(buf[..]), buf[..], prev.value, cur)
    ensures prev.None? ==> Patched(old(buf[..]), buf[..], cur, cur + 4) && Ino(buf[..], cur) == 0
  {
    if prev.Some? {
      Put16(buf, prev.value + 4, RecLen(buf[..], prev.value) + RecLen(buf[..], cur));
    }
    Put32(buf, cur, 0);
  }

  /** Removing a live record of a tiled block leaves it tiled, with exactly that entry gone. */
  lemma DeleteRemoves(b: seq<Byte>, c: seq<Byte>, off: nat, end: nat, inodes: nat)
    requires |b| == |c| == BLOCK && off < end <= BLOCK && Tiles(b, 0, off, inodes) && Sound(b, off, BLOCK, inodes)
    requires Tiles(b, 0, end, inodes) && Ino(b, off) != 0 && Cut(b, c, off, inodes)
    ensures Tiles(c, 0, end, inodes)
    ensures Inserted(Live(c, 0, end, inodes), Live(b, 0, end, inodes),
                     Entry(Ino(b, off), Kind(b, off), Name(b, off)))
  {
    hide Sound, One, Tiles, Live, Inserted, RecLen, NameLen;
    SoundStep(b, off, BLOCK, BLOCK, inodes);
    LiveRecord(b, off, end, inodes);
    var q, e := off + RecLen(b, off), Entry(Ino(b, off), Kind(b, off), Name(b, off));
    TilesNext(b, 0, off, end, inodes);
    TilesSplit(b, 0, q, end, inodes);
    CutSame(b, c, off, inodes);
    TilesSame(b, c, q, end, inodes);
    TilesJoin(c, 0, q, end, inodes);
    var before, rest := Live(b, 0, off, inodes), Live(b, q, end, inodes);
    Spliced(before, [], rest, e);
    assert before + [] + rest == before + rest && before + ([] + [e]) + rest == before + [e] + rest;
  }

  /** A live record on the way of two walks. */
  lemma LiveRecord(b: seq<Byte>, off: nat, end: nat, inodes: nat)
    requires off < end <= |b| && Tiles(b, 0, off, inodes) && Tiles(b, 0, end, inodes)
    requires off + HEADER <= |b| && Ino(b, off) != 0
    ensures Sound(b, off, end, inodes) && off + HEADER + NameLen(b, off) <= |b|
    ensures HEADER <= RecLen(b, off) <= end - off
    ensures One(b, off) == [Entry(Ino(b, off), Kind(b, off), Name(b, off))]
  {
    TilesSplit(b, 0, off, end, inodes);
  }

  lemma CutSame(b: seq<Byte>, c: seq<Byte>, off: nat, inodes: nat)
    requires |b| == |c| == BLOCK && off <= BLOCK && Tiles(b, 0, off, inodes) && Sound(b, off, BLOCK, inodes)
    requires Cut(b, c, off, inodes)
    ensures off + HEADER <= off + RecLen(b, off) <= BLOCK && Tiles(c, 0, off + RecLen(b, off), inodes)
    ensures Live(c, 0, off + RecLen(b, off), inodes) == Live(b, 0, off, inodes)
    ensures forall i: nat :: off + RecLen(b, off) <= i < BLOCK ==> b[i] == c[i]
  {
  }

  /** ext2_set_dirent: the name at off now refers to another inode. */
  method Set(buf: array<Byte>, off: nat, ino: nat, kind: Byte, inodes: nat)
    requires buf.Length == BLOCK && off < BLOCK && Tiles(buf[..], 0, off, inodes) && Sound(buf[..], off, BLOCK, inodes)
    requires 0 < ino <= inodes < UINT32
    modifies buf
    ensures off + HEADER + NameLen(old(buf[..]), off) <= BLOCK
    ensures Reads(buf[..], off, RecLen(old(buf[..]), off), Entry(ino, kind, Name(old(buf[..]), off)))
    ensures Patched(old(buf[..]), buf[..], off, off + HEADER)
  {
    ghost var b := buf[..];
    Put32(buf, off, ino);
    buf[off + 7] := kind;
    assert buf[off + HEADER..off + HEADER + NameLen(b, off)] == Name(b, off);
  }

  lemma Swapped(xs: seq<Entry>, ys: seq<Entry>, x: Entry, e: Entry)
    ensures (xs + [x] + ys)[|xs|] == x && (xs + [x] + ys)[|xs| := e] == xs + [e] + ys
  {
  }

  /** ys is xs with an entry of that name replaced by e. */
  ghost predicate Replaced(xs: seq<Entry>, ys: seq<Entry>, e: Entry) {
    exists k: nat :: k < |xs| && xs[k].name == e.name && ys == xs[k := e]
  }

  /** Giving a live record of a tiled block another inode replaces exactly that entry. */
  lemma SetReplaces(b: seq<Byte>, c: seq<Byte>, off: nat, end: nat, e: Entry, inodes: nat)
    requires |b| == |c| == BLOCK && off < end <= BLOCK && Tiles(b, 0, off, inodes) && Sound(b, off, end, inodes)
    requires Tiles(b, 0, end, inodes) && Ino(b, off) != 0
    requires Reads(c, off, RecLen(b, off), e) && e.name == Name(b, off) && 0 < e.ino <= inodes
    requires Patched(b, c, off, off + HEADER)
    ensures Tiles(c, 0, end, inodes) && Replaced(Live(b, 0, end, inodes), Live(c, 0, end, inodes), e)
  {
    var q := off + RecLen(b, off);
    var x := Entry(Ino(b, off), Kind(b, off), Name(b, off));
    assert One(b, off) == [x] && off + HEADER <= q <= end && q == off + RecLen(b, off);
    assert Same(b, c, 0, off) && Same(b, c, q, end);
    ReadsTile(c, off, RecLen(b, off), e, inodes);
    hide Sound, One, Reads, Same, Tiles, Live, Patched, RecLen;
    TilesNext(b, 0, off, end, inodes);
    TilesSplit(b, 0, q, end, inodes);
    TilesSame(b, c, 0, off, inodes);
    TilesSame(b, c, q, end, inodes);
    TilesJoin(c, 0, off, q, inodes);
    TilesJoin(c, 0, q, end, inodes);
    Swapped(Live(b, 0, off, inodes), Live(b, q, end, inodes), x, e);
    var k := |Live(b, 0, off, inodes)|;
    assert Live(b, 0, end, inodes)[k] == x;
  }

  // ---------------------------------------------------------------------------------------------------------------
  // New and empty directories
  // ---------------------------------------------------------------------------------------------------------------

  const DOT: seq<Byte> := [46]
  const DOT_DOT: seq<Byte> := [46, 46]

  /** The new block of ext2_append_dir_block: one empty record. */
  method Clear(buf: array<Byte>, inodes: nat)
    requires buf.Length == BLOCK
    modifies buf
    ensures Tiles(buf[..], 0, BLOCK, inodes) && Live(buf[..], 0, BLOCK, inodes) == []
    ensures RecLen(buf[..], 0) == BLOCK && Ino(buf[..], 0) == 0
  {
    forall i | 0 <= i < BLOCK {
      buf[i] := 0;
    }
    Put16(buf, 4, BLOCK);
    TileOne(buf[..], 0, BLOCK, inodes);
  }

  /** ext2_init_dir, on the block just appended. */
  method Init(buf: array<Byte>, self: nat, selfKind: Byte, parent: nat, parentKind: Byte, inodes: nat)
    requires buf.Length == BLOCK && 0 < self <= inodes < UINT32 && 0 < parent <= inodes
    modifies buf
    ensures Tiles(buf[..], 0, BLOCK, inodes)
    ensures Live(buf[..], 0, BLOCK, inodes) == [Entry(self, selfKind, DOT), Entry(parent, parentKind, DOT_DOT)]
  {
    var len := Need(1);
    PutRecord(buf, 0, len, Entry(self, selfKind, DOT));
    ghost var b := buf[..];
    TileOne(b, 0, len, inodes);
    PutRecord(buf, len, BLOCK - len, Entry(parent, parentKind, DOT_DOT));
    ghost var c := buf[..];
    TilesSame(b, c, 0, len, inodes);
    TileOne(c, len, BLOCK, inodes);
    TilesJoin(c, 0, len, BLOCK, inodes);
  }

  /** The entries that an empty directory may hold. */
  predicate Dots(e: Entry, self: nat) {
    (e.name == DOT && e.ino == self) || e.name == DOT_DOT
  }

  ghost predicate AllDots(es: seq<Entry>, self: nat) {
    forall i: nat :: i < |es| ==> Dots(es[i], self)
  }

  /** ext2_dir_is_empty_block. */
  method IsEmptyBlock(buf: array<Byte>, end: nat, self: nat, inodes: nat) returns (r: Result<bool>, ghost at: nat)
    requires end <= buf.Length
    ensures at <= end && Tiles(buf[..], 0, at, inodes) && AllDots(Live(buf[..], 0, at, inodes), self)
    ensures r == Ok(true) ==> at == end
    ensures r == Ok(false) ==>
              at < end && Sound(buf[..], at, end, inodes) && Ino(buf[..], at) != 0 && !Dots(One(buf[..], at)[0], self)
    ensures r.Err? ==> r.error == EUCLEAN && at < end && !Sound(buf[..], at, end, inodes)
  {
    var off := 0;
    ghost var b := buf[..];
    while off < end
      invariant off <= end && Tiles(b, 0, off, inodes) && AllDots(Live(b, 0, off, inodes), self)
    {
      if !Sound(buf[..], off, end, inodes) {
        return Err(EUCLEAN), off;
      }
      var ino, name := Ino(buf[..], off), Name(buf[..], off);
      if ino != 0 && !(name == DOT && ino == self) && name != DOT_DOT {
        return Ok(false), off;
      }
      TilesNext(b, 0, off, end, inodes);
      off := off + RecLen(buf[..], off);
    }
    return Ok(true), off;
  }

  // ---------------------------------------------------------------------------------------------------------------
  // Whole directories
  // ---------------------------------------------------------------------------------------------------------------

  /** The blocks of a directory; a block that was never allocated is None. */
  type View = seq<Option<seq<Byte>>>

  /** How much of block k lies inside a directory of this size. */
  function End(size: nat, k: nat): (r: nat)
    requires k * BLOCK < size
    ensures 0 < r <= BLOCK
  {
    if size - k * BLOCK > BLOCK then BLOCK else size - k * BLOCK
  }

  ghost predicate Shaped(v: View, size: nat) {
    && (|v| == 0 ==> size == 0) && (|v| > 0 ==> (|v| - 1) * BLOCK < size <= |v| * BLOCK)
    && forall k: nat :: k < |v| && v[k].Some? ==> |v[k].value| == BLOCK
  }

  ghost predicate BlockTiled(v: View, size: nat, inodes: nat, k: nat)
    requires Shaped(v, size) && k < |v|
  {
    v[k].Some? ==> Tiles(v[k].value, 0, End(size, k), inodes)
  }

  /** Every block is tiled. */
  ghost predicate Tiled(v: View, size: nat, inodes: nat)
    requires Shaped(v, size)
  {
    TiledTo(v, size, inodes, |v|)
  }

  ghost function BlockLive(v: View, size: nat, inodes: nat, k: nat): seq<Entry>
    requires Shaped(v, size) && k < |v| && BlockTiled(v, size, inodes, k)
  {
    if v[k].None? then [] else Live(v[k].value, 0, End(size, k), inodes)
  }

  ghost predicate TiledTo(v: View, size: nat, inodes: nat, n: nat)
    requires Shaped(v, size) && n <= |v|
  {
    forall k: nat :: k < n ==> BlockTiled(v, size, inodes, k)
  }

  /** The entries of the blocks before block n. */
  ghost function Contents(v: View, size: nat, inodes: nat, n: nat): seq<Entry>
    requires Shaped(v, size) && n <= |v| && TiledTo(v, size, inodes, n)
  {
    if n == 0 then [] else Contents(v, size, inodes, n - 1) + BlockLive(v, size, inodes, n - 1)
  }

  /** The first n blocks were searched without meeting the name. */
  ghost predicate Searched(v: View, size: nat, inodes: nat, name: seq<Byte>, n: nat)
    requires Shaped(v, size) && n <= |v|
  {
    forall k: nat :: k < n ==>
      BlockTiled(v, size, inodes, k) && Absent(BlockLive(v, size, inodes, k), name)
  }

  lemma {:induction false} SearchedAbsent(v: View, size: nat, inodes: nat, name: seq<Byte>, n: nat)
    requires Shaped(v, size) && n <= |v| && Searched(v, size, inodes, name, n)
    ensures Absent(Contents(v, size, inodes, n), name)
  {
    hide Shaped, BlockTiled, BlockLive;
    if n > 0 {
      SearchedAbsent(v, size, inodes, name, n - 1);
    }
  }

  /** An entry of a block is an entry of the directory. */
  lemma {:induction false} BlockInContents(v: View, size: nat, inodes: nat, n: nat, k: nat, i: nat)
    requires Shaped(v, size) && Tiled(v, size, inodes) && k < n <= |v| && i < |BlockLive(v, size, inodes, k)|
    ensures BlockLive(v, size, inodes, k)[i] in Contents(v, size, inodes, n)
  {
    hide Shaped, BlockTiled, BlockLive;
    if k < n - 1 {
      BlockInContents(v, size, inodes, n - 1, k, i);
    }
  }

  lemma SearchedNext(v: View, size: nat, inodes: nat, name: seq<Byte>, n: nat)
    requires Shaped(v, size) && n < |v| && Searched(v, size, inodes, name, n)
    requires v[n].Some? ==> Passed(v[n].value, End(size, n), inodes, name)
    ensures Searched(v, size, inodes, name, n + 1)
  {
  }

  /** A search that finds the name finds an entry of the directory; one that does not has looked at all of them. */
  lemma FindWhole(v: View, size: nat, inodes: nat, name: seq<Byte>, n: nat, off: nat)
    requires Shaped(v, size) && Tiled(v, size, inodes) && n <= |v| && Searched(v, size, inodes, name, n)
    ensures n == |v| ==> Absent(Contents(v, size, inodes, |v|), name)
    ensures n < |v| && v[n].Some? && FindAnswer(v[n].value, End(size, n), inodes, name, off, Ok(off)) ==>
              Entry(Ino(v[n].value, off), Kind(v[n].value, off), name) in Contents(v, size, inodes, |v|)
  {
    SearchedAbsent(v, size, inodes, name, n);
    if n < |v| && v[n].Some? && FindAnswer(v[n].value, End(size, n), inodes, name, off, Ok(off)) {
      var b, end := v[n].value, End(size, n);
      assert BlockTiled(v, size, inodes, n);
      TilesSplit(b, 0, off, end, inodes);
      var i := |Live(b, 0, off, inodes)|;
      assert BlockLive(v, size, inodes, n)[i] == One(b, off)[0];
      BlockInContents(v, size, inodes, |v|, n, i);
    }
  }

  /** No record of the first n blocks has the slack for need more bytes. */
  ghost predicate Full(v: View, inodes: nat, need: nat, n: nat)
    requires n <= |v|
  {
    forall k: nat :: k < n && v[k].Some? ==> NoRoom(v[k].value, BLOCK, inodes, need)
  }

  lemma WholeBlocks(v: View, size: nat, k: nat)
    requires Shaped(v, size) && size % BLOCK == 0 && k < |v|
    ensures k * BLOCK < size && End(size, k) == BLOCK && size == |v| * BLOCK
  {
  }

  lemma InsertedAfter(xs: seq<Entry>, ys: seq<Entry>, pre: seq<Entry>, e: Entry)
    requires Inserted(xs, ys, e)
    ensures Inserted(pre + xs, pre + ys, e)
  {
    var k: nat :| k <= |xs| && ys == xs[..k] + [e] + xs[k..];
    var all, j := pre + xs, |pre| + k;
    assert all[..j] == pre + xs[..k] && all[j..] == xs[k..];
    assert pre + ys == all[..j] + [e] + all[j..];
  }

  lemma InsertedBefore(xs: seq<Entry>, ys: seq<Entry>, post: seq<Entry>, e: Entry)
    requires Inserted(xs, ys, e)
    ensures Inserted(xs + post, ys + post, e)
  {
    var k: nat :| k <= |xs| && ys == xs[..k] + [e] + xs[k..];
    var all := xs + post;
    assert all[..k] == xs[..k] && all[k..] == xs[k..] + post;
    assert ys + post == all[..k] + [e] + all[k..];
  }

  /** One block gained an entry and the others are as they were. */
  ghost predicate OneGained(v: View, w: View, size: nat, inodes: nat, at: nat, e: Entry)
    requires Shaped(v, size) && Tiled(v, size, inodes)
  {
    && Shaped(w, size) && |w| == |v| && at < |v|
    && (forall k: nat :: k < |v| && k != at ==> w[k] == v[k])
    && BlockTiled(w, size, inodes, at)
    && Inserted(BlockLive(v, size, inodes, at), BlockLive(w, size, inodes, at), e)
  }

  lemma GainedTiled(v: View, w: View, size: nat, inodes: nat, at: nat, e: Entry)
    requires Shaped(v, size) && Tiled(v, size, inodes) && OneGained(v, w, size, inodes, at, e)
    ensures Tiled(w, size, inodes)
  {
    forall k: nat | k < |w|
      ensures BlockTiled(w, size, inodes, k)
    {
      assert BlockTiled(v, size, inodes, k);
    }
  }

  lemma {:induction false} GainedContents(v: View, w: View, size: nat, inodes: nat, at: nat, e: Entry, n: nat)
    requires Shaped(v, size) && Tiled(v, size, inodes) && OneGained(v, w, size, inodes, at, e) && n <= |v|
    requires Tiled(w, size, inodes)
    ensures n <= at ==> Contents(w, size, inodes, n) == Contents(v, size, inodes, n)
    ensures at < n ==> Inserted(Contents(v, size, inodes, n), Contents(w, size, inodes, n), e)
  {
    hide Inserted, Live, Tiles;
    if n > 0 {
      GainedContents(v, w, size, inodes, at, e, n - 1);
      var xs, ys := BlockLive(v, size, inodes, n - 1), BlockLive(w, size, inodes, n - 1);
      if n - 1 == at {
        InsertedAfter(xs, ys, Contents(v, size, inodes, at), e);
      } else if at < n {
        InsertedBefore(Contents(v, size, inodes, n - 1), Contents(w, size, inodes, n - 1), xs, e);
      }
    }
  }

  /** A successful insertion into one block adds exactly that entry to the directory. */
  lemma AddedContents(v: View, w: View, size: nat, inodes: nat, k: nat, e: Entry, at: nat)
    requires Shaped(v, size) && size % BLOCK == 0 && Tiled(v, size, inodes) && k < |v| && v[k].Some?
    requires Shaped(w, size) && |w| == |v| && w[k].Some? && forall j: nat :: j < |v| && j != k ==> w[j] == v[j]
    requires AddAnswer(v[k].value, w[k].value, inodes, e, at, None) && 0 < e.ino <= inodes
    ensures Tiled(w, size, inodes)
    ensures Inserted(Contents(v, size, inodes, |v|), Contents(w, size, inodes, |w|), e)
  {
    hide AddAnswer, Tiles, Live, Inserted, Contents;
    WholeBlocks(v, size, k);
    assert BlockTiled(v, size, inodes, k);
    AddInserts(v[k].value, w[k].value, inodes, e, at);
    GainedTiled(v, w, size, inodes, k, e);
    GainedContents(v, w, size, inodes, k, e, |v|);
  }

  /** Removing a live record of one block removes exactly that entry from the directory. */
  lemma RemovedContents(v: View, w: View, size: nat, inodes: nat, k: nat, off: nat)
    requires Shaped(v, size) && Tiled(v, size, inodes) && k < |v| && v[k].Some? && off < End(size, k)
    requires Shaped(w, size) && |w| == |v| && w[k].Some? && forall j: nat :: j < |v| && j != k ==> w[j] == v[j]
    requires Tiles(v[k].value, 0, off, inodes) && Sound(v[k].value, off, BLOCK, inodes) && Ino(v[k].value, off) != 0
    requires Cut(v[k].value, w[k].value, off, inodes)
    ensures off + HEADER + NameLen(v[k].value, off) <= BLOCK && Tiled(w, size, inodes)
    ensures Inserted(Contents(w, size, inodes, |w|), Contents(v, size, inodes, |v|),
                     Entry(Ino(v[k].value, off), Kind(v[k].value, off), Name(v[k].value, off)))
  {
    var b := v[k].value;
    SoundStep(b, off, BLOCK, BLOCK, inodes);
    var e := Entry(Ino(b, off), Kind(b, off), Name(b, off));
    hide Cut, Tiles, Live, Inserted, Contents, Sound;
    assert BlockTiled(v, size, inodes, k);
    DeleteRemoves(b, w[k].value, off, End(size, k), inodes);
    OthersTiled(v, w, size, inodes, k);
    GainedContents(w, v, size, inodes, k, e, |v|);
  }

  lemma OthersTiled(v: View, w: View, size: nat, inodes: nat, k: nat)
    requires Shaped(v, size) && Tiled(v, size, inodes) && Shaped(w, size) && |w| == |v| && k < |v|
    requires BlockTiled(w, size, inodes, k) && forall j: nat :: j < |v| && j != k ==> w[j] == v[j]
    ensures Tiled(w, size, inodes)
  {
    forall j: nat | j < |w|
      ensures BlockTiled(w, size, inodes, j)
    {
      assert BlockTiled(v, size, inodes, j);
    }
  }

  lemma ReplacedAfter(xs: seq<Entry>, ys: seq<Entry>, pre: seq<Entry>, e: Entry)
    requires Replaced(xs, ys, e)
    ensures Replaced(pre + xs, pre + ys, e)
  {
    var k: nat :| k < |xs| && xs[k].name == e.name && ys == xs[k := e];
    assert (pre + xs)[|pre| + k] == xs[k] && pre + ys == (pre + xs)[|pre| + k := e];
  }

  lemma ReplacedBefore(xs: seq<Entry>, ys: seq<Entry>, post: seq<Entry>, e: Entry)
    requires Replaced(xs, ys, e)
    ensures Replaced(xs + post, ys + post, e)
  {
    var k: nat :| k < |xs| && xs[k].name == e.name && ys == xs[k := e];
    assert (xs + post)[k] == xs[k] && ys + post == (xs + post)[k := e];
  }

  lemma {:induction false} ReplacedContents(v: View, w: View, size: nat, inodes: nat, at: nat, e: Entry, n: nat)
    requires Shaped(v, size) && Tiled(v, size, inodes) && Shaped(w, size) && Tiled(w, size, inodes)
    requires |w| == |v| && at < |v| && n <= |v| && forall k: nat :: k < |v| && k != at ==> w[k] == v[k]
    requires Replaced(BlockLive(v, size, inodes, at), BlockLive(w, size, inodes, at), e)
    ensures n <= at ==> Contents(w, size, inodes, n) == Contents(v, size, inodes, n)
    ensures at < n ==> Replaced(Contents(v, size, inodes, n), Contents(w, size, inodes, n), e)
  {
    hide Replaced, Live, Tiles;
    if n > 0 {
      ReplacedContents(v, w, size, inodes, at, e, n - 1);
      var xs, ys := BlockLive(v, size, inodes, n - 1), BlockLive(w, size, inodes, n - 1);
      if n - 1 == at {
        ReplacedAfter(xs, ys, Contents(v, size, inodes, at), e);
      } else if at < n {
        ReplacedBefore(Contents(v, size, inodes, n - 1), Contents(w, size, inodes, n - 1), xs, e);
      }
    }
  }

  /** Giving a live record of one block another inode replaces exactly that entry of the directory. */
  lemma SetContents(v: View, w: View, size: nat, inodes: nat, k: nat, off: nat, e: Entry)
    requires Shaped(v, size) && Tiled(v, size, inodes) && k < |v| && v[k].Some? && off < End(size, k)
    requires Shaped(w, size) && |w| == |v| && w[k].Some? && forall j: nat :: j < |v| && j != k ==> w[j] == v[j]
    requires Tiles(v[k].value, 0, off, inodes) && Sound(v[k].value, off, End(size, k), inodes)
    requires Ino(v[k].value, off) != 0 && Reads(w[k].value, off, RecLen(v[k].value, off), e)
    requires e.name == Name(v[k].value, off) && 0 < e.ino <= inodes
    requires Patched(v[k].value, w[k].value, off, off + HEADER)
    ensures Tiled(w, size, inodes)
    ensures Replaced(Contents(v, size, inodes, |v|), Contents(w, size, inodes, |w|), e)
  {
    hide Tiles, Live, Replaced, Contents, Sound, Reads, Patched;
    assert BlockTiled(v, size, inodes, k);
    SetReplaces(v[k].value, w[k].value, off, End(size, k), e, inodes);
    OthersTiled(v, w, size, inodes, k);
    ReplacedContents(v, w, size, inodes, k, e, |v|);
  }

  /** The first n blocks hold nothing but what an empty directory may hold. */
  ghost predicate DotsTo(v: View, size: nat, inodes: nat, self: nat, n: nat)
    requires Shaped(v, size) && n <= |v|
  {
    forall k: nat :: k < n ==> BlockTiled(v, size, inodes, k) && AllDots(BlockLive(v, size, inodes, k), self)
  }

  lemma {:induction false} DotsContents(v: View, size: nat, inodes: nat, self: nat, n: nat)
    requires Shaped(v, size) && n <= |v| && DotsTo(v, size, inodes, self, n)
    ensures TiledTo(v, size, inodes, n) && AllDots(Contents(v, size, inodes, n), self)
  {
    hide Shaped, BlockTiled, BlockLive;
    if n > 0 {
      DotsContents(v, size, inodes, self, n - 1);
    }
  }

  lemma DotsNone(v: View, size: nat, inodes: nat, self: nat)
    requires Shaped(v, size)
    ensures DotsTo(v, size, inodes, self, 0)
  {
  }

  lemma DotsNext(v: View, size: nat, inodes: nat, self: nat, n: nat)
    requires Shaped(v, size) && n < |v| && DotsTo(v, size, inodes, self, n)
    requires v[n].Some? ==>
               Tiles(v[n].value, 0, End(size, n), inodes) && AllDots(Live(v[n].value, 0, End(size, n), inodes), self)
    ensures DotsTo(v, size, inodes, self, n + 1)
  {
  }

  /** A live entry of another kind in a tiled directory. */
  lemma NotEmpty(v: View, size: nat, inodes: nat, self: nat, k: nat, at: nat)
    requires Shaped(v, size) && Tiled(v, size, inodes) && k < |v| && v[k].Some? && at < End(size, k)
    requires Tiles(v[k].value, 0, at, inodes) && Sound(v[k].value, at, End(size, k), inodes)
    requires Ino(v[k].value, at) != 0 && !Dots(One(v[k].value, at)[0], self)
    ensures !AllDots(Contents(v, size, inodes, |v|), self)
  {
    var b, end := v[k].value, End(size, k);
    assert BlockTiled(v, size, inodes, k);
    TilesSplit(b, 0, at, end, inodes);
    var i := |Live(b, 0, at, inodes)|;
    assert BlockLive(v, size, inodes, k)[i] == One(b, at)[0];
    BlockInContents(v, size, inodes, |v|, k, i);
  }

  /** w is v with one more block, which is inside the new size. */
  ghost predicate Grown(v: View, w: View, size: nat, more: nat)
    requires Shaped(v, size)
  {
    && size % BLOCK == 0 && more == size + BLOCK && Shaped(w, more) && |w| == |v| + 1
    && forall k: nat :: k < |v| ==> w[k] == v[k]
  }

  /** A new block at the end changes nothing in the ones before it. */
  lemma GrownBlock(v: View, w: View, size: nat, more: nat, inodes: nat, k: nat)
    requires Shaped(v, size) && Grown(v, w, size, more) && k < |v| && BlockTiled(v, size, inodes, k)
    ensures BlockTiled(w, more, inodes, k) && BlockLive(w, more, inodes, k) == BlockLive(v, size, inodes, k)
  {
    WholeBlocks(v, size, k);
    WholeBlocks(w, more, k);
  }

  lemma {:induction false} GrownContents(v: View, w: View, size: nat, more: nat, inodes: nat, n: nat)
    requires Shaped(v, size) && Grown(v, w, size, more) && n <= |v| && Tiled(v, size, inodes)
    ensures TiledTo(w, more, inodes, n) && Contents(w, more, inodes, n) == Contents(v, size, inodes, n)
  {
    hide Shaped, BlockTiled, BlockLive;
    if n > 0 {
      GrownContents(v, w, size, more, inodes, n - 1);
      GrownBlock(v, w, size, more, inodes, n - 1);
    }
  }

  lemma GrownGains(v: View, w: View, size: nat, more: nat, inodes: nat, e: Entry)
    requires Shaped(v, size) && Grown(v, w, size, more) && Tiled(v, size, inodes) && w[|v|].Some?
    requires Tiles(w[|v|].value, 0, BLOCK, inodes) && Live(w[|v|].value, 0, BLOCK, inodes) == [e]
    ensures Tiled(w, more, inodes)
    ensures Inserted(Contents(v, size, inodes, |v|), Contents(w, more, inodes, |w|), e)
  {
    hide Tiles, Live, Shaped;
    GrownContents(v, w, size, more, inodes, |v|);
    WholeBlocks(w, more, |v|);
    assert BlockTiled(w, more, inodes, |v|) && BlockLive(w, more, inodes, |v|) == [e];
    var all := Contents(v, size, inodes, |v|);
    assert all + [e] == all[..|all|] + [e] + all[|all|..];
  }

  class Directory {
    var blocks: seq<array?<Byte>>
    var size: nat
    const inodes: nat

    ghost predicate Valid()
      reads this
    {
      && inodes < UINT32 && size < UINT32
      && (forall k: nat :: k < |blocks| && blocks[k] != null ==> blocks[k].Length == BLOCK)
      && (forall j: nat, k: nat :: j < k < |blocks| && blocks[j] != null ==> blocks[j] != blocks[k])
      && (|blocks| == 0 ==> size == 0) && (|blocks| > 0 ==> (|blocks| - 1) * BLOCK < size <= |blocks| * BLOCK)
    }

    ghost function At(k: nat): Option<seq<Byte>>
      requires k < |blocks|
      reads this, blocks[k]
    {
      if blocks[k] == null then None else Some(blocks[k][..])
    }

    ghost function Bytes(): (v: View)
      requires Valid()
      reads this, blocks
      ensures |v| == |blocks| && Shaped(v, size) && forall k: nat :: k < |v| ==> v[k] == At(k)
    {
      seq(|blocks|, k requires 0 <= k < |blocks| reads this, blocks => At(k))
    }

    /** ext2_find_dirent. `io` says which blocks cannot be read. */
    method Find(name: seq<Byte>, io: nat -> Option<Error>) returns (r: Result<(nat, nat)>, ghost n: nat)
      requires Valid()
      ensures n <= |blocks| && Searched(Bytes(), size, inodes, name, n)
      ensures r.Ok? ==>
                && n == r.value.0 < |blocks| && Bytes()[n].Some? && n * BLOCK < size
                && FindAnswer(Bytes()[n].value, End(size, n), inodes, name, r.value.1, Ok(r.value.1))
      ensures r.Err? ==>
                || (r.error == ENOENT && n == |blocks|)
                || (n < |blocks| && io(n) == Some(r.error))
                || (r.error == EUCLEAN && n < |blocks| && !BlockTiled(Bytes(), size, inodes, n))
    {
      var k := 0;
      ghost var v := Bytes();
      assert Searched(v, size, inodes, name, 0);
      hide Searched, Absent, Tiles, Live, Sound, Matches;
      while k * BLOCK < size
        invariant k <= |blocks| && Searched(v, size, inodes, name, k)
        decreases |blocks| - k
      {
        if io(k).Some? {
          return Err(io(k).value), k;
        }
        assert v[k] == At(k);
        if blocks[k] != null {
          var answer, at := FindBlock(blocks[k], End(size, k), inodes, name);
          if answer.Ok? {
            return Ok((k, answer.value)), k;
          }
          if answer.error != ENOENT {
            NotTiled(v[k].value, End(size, k), inodes, at);
            return Err(answer.error), k;
          }
        }
        SearchedNext(v, size, inodes, name, k);
        k := k + 1;
      }
      return Err(ENOENT), k;
    }

    /** ext2_add_dirent. `io` says which blocks cannot be read, and `grow` why a new block cannot be had. */
    method Add(e: Entry, io: nat -> Option<Error>, grow: Option<Error>) returns (r: Option<Error>, ghost n: nat)
      requires Valid() && 0 < e.ino <= inodes && |e.name| < 0x100
      modifies this, blocks
      ensures Valid()
      ensures r.Some? ==> Bytes() == old(Bytes()) && size == old(size)
      ensures r.None? && Tiled(old(Bytes()), old(size), inodes) ==>
                && Tiled(Bytes(), size, inodes)
                && Inserted(Contents(old(Bytes()), old(size), inodes, old(|blocks|)),
                            Contents(Bytes(), size, inodes, |blocks|), e)
      ensures n <= old(|blocks|) && Full(old(Bytes()), inodes, Need(|e.name|), n)
      ensures size != old(size) ==> size == old(size) + BLOCK && n == old(|blocks|)
      ensures r.Some? ==>
                || (r == Some(EUCLEAN) && old(size) % BLOCK != 0)
                || (n < |blocks| && r == io(n))
                || (n < |blocks| && r == Some(EUCLEAN) && !BlockTiled(old(Bytes()), old(size), inodes, n))
                || (n == |blocks| && r == Some(EFBIG) && old(size) + BLOCK >= UINT32)
                || (n == |blocks| && r == grow)
    {
      if size % BLOCK != 0 {
        return Some(EUCLEAN), 0;
      }
      var k := 0;
      ghost var v := Bytes();
      while k * BLOCK < size
        invariant Valid() && blocks == old(blocks) && size == old(size) && Bytes() == v
        invariant k <= |blocks| && Full(v, inodes, Need(|e.name|), k)
        decreases |blocks| - k
      {
        if io(k).Some? {
          return io(k), k;
        }
        if blocks[k] != null {
          var answer := AddTo(k, e);
          if answer != Some(ENOSPC) {
            return answer, k;
          }
        }
        k := k + 1;
      }
      if size + BLOCK >= UINT32 {
        return Some(EFBIG), k;
      }
      if grow.Some? {
        return grow, k;
      }
      Append(e);
      return None, k;
    }

    /** Tries block k. */
    method AddTo(k: nat, e: Entry) returns (r: Option<Error>)
      requires Valid() && k < |blocks| && blocks[k] != null && size % BLOCK == 0
      requires 0 < e.ino <= inodes && |e.name| < 0x100
      modifies blocks[k]
      ensures Valid()
      ensures r.Some? ==> Bytes() == old(Bytes())
      ensures r == Some(ENOSPC) ==> NoRoom(old(blocks[k][..]), BLOCK, inodes, Need(|e.name|))
      ensures r.Some? && r != Some(ENOSPC) ==>
                r == Some(EUCLEAN) && !BlockTiled(old(Bytes()), size, inodes, k)
      ensures r.None? && Tiled(old(Bytes()), size, inodes) ==>
                && Tiled(Bytes(), size, inodes)
                && Inserted(Contents(old(Bytes()), size, inodes, |blocks|),
                            Contents(Bytes(), size, inodes, |blocks|), e)
    {
      ghost var v := Bytes();
      ghost var at;
      r, at := AddBlock(blocks[k], inodes, e);
      ghost var w := Bytes();
      assert v[k] == Some(old(blocks[k][..])) && w[k] == Some(blocks[k][..]);
      assert forall j: nat :: j < |v| && j != k ==> w[j] == v[j];
      WholeBlocks(v, size, k);
      if r == Some(EUCLEAN) {
        NotTiled(v[k].value, BLOCK, inodes, at);
      }
      if r.None? && Tiled(v, size, inodes) {
        AddedContents(v, w, size, inodes, k, e, at);
      }
    }

    /** ext2_append_dir_block, and the insertion into the new block, which cannot fail. */
    method Append(e: Entry)
      requires Valid() && size % BLOCK == 0 && size + BLOCK < UINT32 && 0 < e.ino <= inodes && |e.name| < 0x100
      modifies this
      ensures Valid() && size == old(size) + BLOCK
      ensures Grown(old(Bytes()), Bytes(), old(size), size)
      ensures Tiled(old(Bytes()), old(size), inodes) ==>
                && Tiled(Bytes(), size, inodes)
                && Inserted(Contents(old(Bytes()), old(size), inodes, old(|blocks|)),
                            Contents(Bytes(), size, inodes, |blocks|), e)
    {
      ghost var v := Bytes();
      var buf := new Byte[BLOCK];
      Clear(buf, inodes);
      ghost var b := buf[..];
      var answer, at := AddBlock(buf, inodes, e);
      ClearedTakes(b, buf[..], inodes, e, at, answer);
      blocks := blocks + [buf];
      size := size + BLOCK;
      ghost var w := Bytes();
      assert w[|v|] == Some(buf[..]);
      if Tiled(v, old(size), inodes) {
        GrownGains(v, w, old(size), size, inodes, e);
      }
    }

    /** The record at off of block k, where a search found it, is live. */
    ghost predicate Found(k: nat, off: nat)
      requires Valid()
      reads this, blocks
    {
      && k < |blocks| && blocks[k] != null && k * BLOCK < size && off < End(size, k)
      && Tiles(blocks[k][..], 0, off, inodes) && Sound(blocks[k][..], off, End(size, k), inodes)
      && Ino(blocks[k][..], off) != 0
    }

    ghost function EntryAt(k: nat, off: nat): Entry
      requires Valid() && Found(k, off)
      reads this, blocks
    {
      Entry(Ino(blocks[k][..], off), Kind(blocks[k][..], off), Name(blocks[k][..], off))
    }

    /** ext2_delete_dirent on what ext2_find_dirent found: the directory loses exactly that entry. */
    method Remove(k: nat, off: nat)
      requires Valid() && Found(k, off)
      modifies blocks[k]
      ensures Valid()
      ensures Tiled(old(Bytes()), size, inodes) ==>
                && Tiled(Bytes(), size, inodes)
                && Inserted(Contents(Bytes(), size, inodes, |blocks|), Contents(old(Bytes()), size, inodes, |blocks|),
                            old(EntryAt(k, off)))
    {
      hide Tiles, Sound, Cut, Inserted, Contents, Shaped, Tiled;
      ghost var v := Bytes();
      assert v[k] == Some(blocks[k][..]);
      SoundStep(blocks[k][..], off, End(size, k), BLOCK, inodes);
      Delete(blocks[k], off, inodes);
      ghost var w := Bytes();
      assert w[k] == Some(blocks[k][..]);
      assert forall j: nat :: j < |v| && j != k ==> w[j] == v[j];
      if Tiled(v, size, inodes) {
        RemovedContents(v, w, size, inodes, k, off);
      }
    }

    /** ext2_set_dirent on what ext2_find_dirent found: exactly that entry changes its inode. */
    method Retarget(k: nat, off: nat, ino: nat, kind: Byte)
      requires Valid() && Found(k, off) && 0 < ino <= inodes
      modifies blocks[k]
      ensures Valid()
      ensures Tiled(old(Bytes()), size, inodes) ==>
                && Tiled(Bytes(), size, inodes)
                && Replaced(Contents(old(Bytes()), size, inodes, |blocks|), Contents(Bytes(), size, inodes, |blocks|),
                            Entry(ino, kind, old(EntryAt(k, off)).name))
    {
      hide Tiles, Sound, Replaced, Contents, Shaped, Tiled, Reads, Patched;
      ghost var v := Bytes();
      ghost var e := Entry(ino, kind, EntryAt(k, off).name);
      assert v[k] == Some(blocks[k][..]);
      SoundStep(blocks[k][..], off, End(size, k), BLOCK, inodes);
      Set(blocks[k], off, ino, kind, inodes);
      ghost var w := Bytes();
      assert w[k] == Some(blocks[k][..]);
      assert forall j: nat :: j < |v| && j != k ==> w[j] == v[j];
      if Tiled(v, size, inodes) {
        SetContents(v, w, size, inodes, k, off, e);
      }
    }

    /** ext2_dir_is_empty: in a directory without damage, and if every block can be read, true exactly if nothing but
        the two dots is left. */
    method IsEmpty(self: nat, io: nat -> Option<Error>) returns (r: Result<bool>)
      requires Valid()
      ensures r == Ok(true) ==>
                Tiled(Bytes(), size, inodes) && AllDots(Contents(Bytes(), size, inodes, |blocks|), self)
      ensures r == Ok(false) && Tiled(Bytes(), size, inodes) ==>
                !AllDots(Contents(Bytes(), size, inodes, |blocks|), self)
      ensures r.Err? ==>
                (exists k: nat :: io(k) == Some(r.error)) || (r.error == EUCLEAN && !Tiled(Bytes(), size, inodes))
    {
      hide DotsTo, AllDots, Tiles, Live, Sound, Dots, Contents;
      var k := 0;
      ghost var v := Bytes();
      DotsNone(v, size, inodes, self);
      while k * BLOCK < size
        invariant k <= |blocks| && DotsTo(v, size, inodes, self, k)
        decreases |blocks| - k
      {
        if io(k).Some? {
          return Err(io(k).value);
        }
        assert v[k] == At(k);
        if blocks[k] != null {
          var answer, at := IsEmptyBlock(blocks[k], End(size, k), self, inodes);
          if answer.Err? {
            NotTiled(v[k].value, End(size, k), inodes, at);
            assert !BlockTiled(v, size, inodes, k);
            return answer;
          }
          if !answer.value {
            if Tiled(v, size, inodes) {
              NotEmpty(v, size, inodes, self, k, at);
            }
            return answer;
          }
        }
        DotsNext(v, size, inodes, self, k);
        k := k + 1;
      }
      DotsContents(v, size, inodes, self, |v|);
      return Ok(true);
    }

    /** ext2_dir_readdir: one call, of which the reader takes `room` items at most. */
    method Read(pos: nat, room: nat, typed: bool, io: nat -> Option<Error>)
      returns (r: Option<Error>, out: seq<Item>, next: nat)
      requires Valid()
      ensures pos <= next && |out| <= room
      ensures r.None? ==> next >= size || |out| == room
      ensures room > 0 && r.None? && pos < size ==> pos < next
      ensures Cursor(Bytes(), size, inodes, pos) ==> Reached(Bytes(), size, inodes, typed, pos, next, out)
      ensures Cursor(Bytes(), size, inodes, pos) && r.Some? ==>
                (exists k: nat :: io(k) == r) || (r == Some(EUCLEAN) && !Tiled(Bytes(), size, inodes))
    {
      ghost var v := Bytes();
      ghost var good := Cursor(v, size, inodes, pos);
      out, next := [], pos;
      assert good ==> Reached(v, size, inodes, typed, pos, next, out);
      hide Cursor, Before, Shaped, BlockTiled;
      while next < size
        invariant pos <= next && |out| <= room && (|out| > 0 ==> pos < next)
        invariant good ==> Reached(v, size, inodes, typed, pos, next, out)
      {
        var k := next / BLOCK;
        if io(k).Some? {
          return io(k), out, next;
        }
        if blocks[k] == null {
          if good {
            CursorSkips(v, size, inodes, typed, next, k);
            ReachedThen(v, size, inodes, typed, pos, next, (k + 1) * BLOCK, out, []);
            assert out + [] == out;
          }
          next := (k + 1) * BLOCK;
        } else {
          var answer, more, stop := ReadFrom(next, k, room - |out|, typed);
          if good {
            ReachedThen(v, size, inodes, typed, pos, next, stop, out, more);
          }
          out, next := out + more, stop;
          if answer.Err? {
            return Some(answer.error), out, next;
          }
          if !answer.value {
            return None, out, next;
          }
        }
      }
      return None, out, next;
    }

    /** A reader that calls again where it stopped, each time with room for at least one item, gets every entry of the
        directory exactly once, in order, whatever the sizes of its calls. */
    method ReadAll(rooms: nat -> nat, typed: bool, io: nat -> Option<Error>) returns (r: Option<Error>, out: seq<Item>)
      requires Valid() && forall i: nat :: rooms(i) > 0
      ensures r.None? ==>
                Tiled(Bytes(), size, inodes) && Lists(out, Contents(Bytes(), size, inodes, |blocks|), typed)
      ensures Tiled(Bytes(), size, inodes) && (forall k: nat :: io(k).None?) ==> r.None?
    {
      ghost var v := Bytes();
      var pos, calls := 0, 0;
      out := [];
      assert Reached(v, size, inodes, typed, 0, 0, []);
      assert Before(v, size, inodes, typed, 0) == [];
      hide Cursor, Before, Shaped, BlockTiled, Tiled, Contents, Lists, AllItems;
      while pos < size
        invariant Reached(v, size, inodes, typed, 0, pos, out)
      {
        var answer, more, next := Read(pos, rooms(calls), typed, io);
        ReachedThen(v, size, inodes, typed, 0, pos, next, out, more);
        out, pos, calls := out + more, next, calls + 1;
        if answer.Some? {
          return answer, out;
        }
      }
      CursorEnds(v, size, inodes, typed, pos);
      AllItemsList(v, size, inodes, typed, |v|);
      assert [] + out == out;
      return None, out;
    }

    /** The rest of block k, from pos on. */
    method ReadFrom(pos: nat, k: nat, room: nat, typed: bool) returns (r: Result<bool>, out: seq<Item>, next: nat)
      requires Valid() && pos < size && k == pos / BLOCK && k < |blocks| && blocks[k] != null
      ensures pos <= next && |out| <= room && (|out| > 0 ==> pos < next)
      ensures r.Ok? && r.value ==> pos < next
      ensures r.Ok? && !r.value ==> |out| == room
      ensures r.Err? ==> r.error == EUCLEAN
      ensures Cursor(Bytes(), size, inodes, pos) ==> Reached(Bytes(), size, inodes, typed, pos, next, out)
      ensures Cursor(Bytes(), size, inodes, pos) && r.Err? ==> !BlockTiled(Bytes(), size, inodes, k)
    {
      hide Cursor, Before, Reached, Tiles, Items, Sound, BlockTiled, Shaped, Ino;
      ghost var v := Bytes();
      var buf, off, end := blocks[k][..], pos % BLOCK, End(size, k);
      assert v[k] == Some(buf) && pos == k * BLOCK + off && off < end;
      var stop;
      r, out, stop := ReadBlock(buf, end, off, k * BLOCK, room, inodes, typed);
      next := k * BLOCK + stop;
      if Cursor(v, size, inodes, pos) {
        CursorMoves(v, size, inodes, typed, pos, k, stop);
        if r.Err? {
          CursorDamage(v, size, inodes, pos, k, stop);
        }
      }
    }
  }

  /** An empty block has room for any entry. */
  lemma ClearedTakes(b: seq<Byte>, c: seq<Byte>, inodes: nat, e: Entry, at: nat, r: Option<Error>)
    requires |b| == BLOCK && Tiles(b, 0, BLOCK, inodes) && Live(b, 0, BLOCK, inodes) == []
    requires RecLen(b, 0) == BLOCK && Ino(b, 0) == 0 && 0 < e.ino <= inodes && |e.name| < 0x100
    requires AddAnswer(b, c, inodes, e, at, r)
    ensures r.None? && Tiles(c, 0, BLOCK, inodes) && Live(c, 0, BLOCK, inodes) == [e]
  {
    AddFails(b, c, inodes, e, at, r);
    assert Tiles(b, 0, 0, inodes);
    AddInserts(b, c, inodes, e, at);
  }

  /** A walk that meets a damaged record never gets to the end. */
  lemma NotTiled(b: seq<Byte>, end: nat, inodes: nat, at: nat)
    requires at < end <= |b| && Tiles(b, 0, at, inodes) && !Sound(b, at, end, inodes)
    ensures !Tiles(b, 0, end, inodes)
  {
    if Tiles(b, 0, end, inodes) {
      TilesSplit(b, 0, at, end, inodes);
    }
  }

  // ---------------------------------------------------------------------------------------------------------------
  // Listing
  // ---------------------------------------------------------------------------------------------------------------

  /** What is handed to the reader: the type is that of the interface, and next is where to go on after the entry. */
  datatype Item = Item(ino: nat, kind: nat, name: seq<Byte>, next: nat)

  const TYPES: seq<nat> := [0, 8, 4, 2, 6, 1, 12, 10]

  /** The type that is reported; unknown if the file system does not record types. */
  function Reported(typed: bool, kind: Byte): nat {
    if typed && kind < |TYPES| then TYPES[kind] else 0
  }

  ghost function OneItem(b: seq<Byte>, base: nat, off: nat, typed: bool): seq<Item>
    requires off + HEADER <= |b| && off + HEADER + NameLen(b, off) <= |b|
  {
    if Ino(b, off) == 0 then []
    else [Item(Ino(b, off), Reported(typed, Kind(b, off)), Name(b, off), base + off + RecLen(b, off))]
  }

  /** The items of the records between lo and hi of the block that starts at base. */
  ghost function Items(b: seq<Byte>, base: nat, lo: nat, hi: nat, inodes: nat, typed: bool): seq<Item>
    requires lo <= hi <= |b| && Tiles(b, lo, hi, inodes)
    decreases hi - lo
  {
    if lo == hi then [] else OneItem(b, base, lo, typed) + Items(b, base, lo + RecLen(b, lo), hi, inodes, typed)
  }

  lemma {:induction false} ItemsJoin(b: seq<Byte>, base: nat, p: nat, q: nat, r: nat, inodes: nat, typed: bool)
    requires p <= q <= r <= |b| && Tiles(b, p, q, inodes) && Tiles(b, q, r, inodes) && Tiles(b, p, r, inodes)
    ensures Items(b, base, p, r, inodes, typed)
         == Items(b, base, p, q, inodes, typed) + Items(b, base, q, r, inodes, typed)
    decreases q - p
  {
    hide Sound, OneItem, RecLen, NameLen;
    if p < q {
      SoundStep(b, p, q, r, inodes);
      ItemsJoin(b, base, p + RecLen(b, p), q, r, inodes, typed);
    }
  }

  lemma ItemsNext(b: seq<Byte>, base: nat, lo: nat, p: nat, end: nat, inodes: nat, typed: bool)
    requires lo <= p < end <= |b| && Tiles(b, lo, p, inodes) && Sound(b, p, end, inodes)
    ensures p + RecLen(b, p) <= end && Tiles(b, lo, p + RecLen(b, p), inodes)
    ensures Items(b, base, lo, p + RecLen(b, p), inodes, typed)
         == Items(b, base, lo, p, inodes, typed) + OneItem(b, base, p, typed)
  {
    assert p + HEADER <= |b|;
    hide Sound, OneItem, RecLen, NameLen;
    var q := p + RecLen(b, p);
    SoundStep(b, p, end, end, inodes);
    TileOne(b, p, q, inodes);
    TilesJoin(b, lo, p, q, inodes);
    ItemsJoin(b, base, lo, p, q, inodes, typed);
    assert Items(b, base, q, q, inodes, typed) == [];
  }

  /** The items of a block are its live entries, in order. */
  lemma {:induction false} ItemsLive(b: seq<Byte>, base: nat, lo: nat, hi: nat, inodes: nat, typed: bool)
    requires lo <= hi <= |b| && Tiles(b, lo, hi, inodes)
    ensures Lists(Items(b, base, lo, hi, inodes, typed), Live(b, lo, hi, inodes), typed)
    decreases hi - lo
  {
    hide Sound, One, OneItem, RecLen, NameLen;
    if lo < hi {
      SoundStep(b, lo, hi, hi, inodes);
      OneLists(b, base, lo, typed);
      ItemsLive(b, base, lo + RecLen(b, lo), hi, inodes, typed);
    }
  }

  lemma OneLists(b: seq<Byte>, base: nat, off: nat, typed: bool)
    requires off + HEADER <= |b| && off + HEADER + NameLen(b, off) <= |b|
    ensures Lists(OneItem(b, base, off, typed), One(b, off), typed)
  {
  }

  /** The items report exactly these entries, in this order. */
  ghost predicate Lists(items: seq<Item>, es: seq<Entry>, typed: bool) {
    && |items| == |es|
    && forall i: nat :: i < |es| ==>
         items[i].ino == es[i].ino && items[i].name == es[i].name && items[i].kind == Reported(typed, es[i].kind)
  }

  /** ext2_readdir_block: emits the records from off on until the reader has had `room` items. True is the end of the
      block, false a reader that is full. */
  method ReadBlock(buf: seq<Byte>, end: nat, off: nat, base: nat, room: nat, inodes: nat, typed: bool)
    returns (r: Result<bool>, out: seq<Item>, stop: nat)
    requires end <= |buf| && off <= end
    ensures off <= stop <= end && Tiles(buf, off, stop, inodes)
    ensures out == Items(buf, base, off, stop, inodes, typed) && |out| <= room && (|out| > 0 ==> off < stop)
    ensures r == Ok(true) ==> stop == end
    ensures r == Ok(false) ==> |out| == room && stop < end && Sound(buf, stop, end, inodes) && Ino(buf, stop) != 0
    ensures r.Err? ==> r.error == EUCLEAN && stop < end && !Sound(buf, stop, end, inodes)
  {
    out, stop := [], off;
    while stop < end
      invariant off <= stop <= end && Tiles(buf, off, stop, inodes)
      invariant out == Items(buf, base, off, stop, inodes, typed) && |out| <= room
    {
      if !Sound(buf, stop, end, inodes) {
        return Err(EUCLEAN), out, stop;
      }
      ItemsNext(buf, base, off, stop, end, inodes, typed);
      var next := stop + RecLen(buf, stop);
      if Ino(buf, stop) != 0 {
        if |out| == room {
          return Ok(false), out, stop;
        }
        out := out + [Item(Ino(buf, stop), Reported(typed, Kind(buf, stop)), Name(buf, stop), base + next)];
      }
      stop := next;
    }
    return Ok(true), out, stop;
  }

  ghost function BlockItems(v: View, size: nat, inodes: nat, typed: bool, k: nat): seq<Item>
    requires Shaped(v, size) && k < |v| && BlockTiled(v, size, inodes, k)
  {
    if v[k].None? then [] else Items(v[k].value, k * BLOCK, 0, End(size, k), inodes, typed)
  }

  /** The items of the blocks before block n. */
  ghost function AllItems(v: View, size: nat, inodes: nat, typed: bool, n: nat): seq<Item>
    requires Shaped(v, size) && n <= |v| && TiledTo(v, size, inodes, n)
  {
    if n == 0 then [] else AllItems(v, size, inodes, typed, n - 1) + BlockItems(v, size, inodes, typed, n - 1)
  }

  lemma BlockItemsList(v: View, size: nat, inodes: nat, typed: bool, k: nat)
    requires Shaped(v, size) && k < |v| && BlockTiled(v, size, inodes, k)
    ensures Lists(BlockItems(v, size, inodes, typed, k), BlockLive(v, size, inodes, k), typed)
  {
    if v[k].Some? {
      ItemsLive(v[k].value, k * BLOCK, 0, End(size, k), inodes, typed);
    }
  }

  lemma {:induction false} AllItemsList(v: View, size: nat, inodes: nat, typed: bool, n: nat)
    requires Shaped(v, size) && n <= |v| && TiledTo(v, size, inodes, n)
    ensures Lists(AllItems(v, size, inodes, typed, n), Contents(v, size, inodes, n), typed)
  {
    hide Shaped, BlockTiled, BlockItems, BlockLive;
    if n > 0 {
      AllItemsList(v, size, inodes, typed, n - 1);
      BlockItemsList(v, size, inodes, typed, n - 1);
    }
  }

  /** Block k at off is a place between two records of the directory, all of which before it are sound. */
  ghost predicate CursorAt(v: View, size: nat, inodes: nat, k: nat, off: nat)
    requires Shaped(v, size)
  {
    && k <= |v| && TiledTo(v, size, inodes, k)
    && (off > 0 ==> k < |v| && v[k].Some? && off <= End(size, k) && Tiles(v[k].value, 0, off, inodes))
  }

  /** The items of the records before that place. */
  ghost function BeforeAt(v: View, size: nat, inodes: nat, typed: bool, k: nat, off: nat): seq<Item>
    requires Shaped(v, size) && CursorAt(v, size, inodes, k, off)
  {
    AllItems(v, size, inodes, typed, k) +
    (if off == 0 then [] else Items(v[k].value, k * BLOCK, 0, off, inodes, typed))
  }

  ghost predicate Cursor(v: View, size: nat, inodes: nat, pos: nat)
    requires Shaped(v, size)
  {
    CursorAt(v, size, inodes, pos / BLOCK, pos % BLOCK)
  }

  ghost function Before(v: View, size: nat, inodes: nat, typed: bool, pos: nat): seq<Item>
    requires Shaped(v, size) && Cursor(v, size, inodes, pos)
  {
    BeforeAt(v, size, inodes, typed, pos / BLOCK, pos % BLOCK)
  }

  lemma Position(k: nat, off: nat)
    requires off < BLOCK
    ensures (k * BLOCK + off) / BLOCK == k && (k * BLOCK + off) % BLOCK == off
  {
  }

  /** Reading on inside a block. */
  lemma MovesInside(v: View, size: nat, inodes: nat, typed: bool, k: nat, off: nat, stop: nat)
    requires Shaped(v, size) && k < |v| && v[k].Some? && off <= stop <= End(size, k)
    requires CursorAt(v, size, inodes, k, off) && Tiles(v[k].value, off, stop, inodes)
    ensures CursorAt(v, size, inodes, k, stop)
    ensures BeforeAt(v, size, inodes, typed, k, stop)
         == BeforeAt(v, size, inodes, typed, k, off) + Items(v[k].value, k * BLOCK, off, stop, inodes, typed)
  {
    var b := v[k].value;
    NoItems(b, k * BLOCK, inodes, typed);
    hide Shaped, Items, Live, Sound, OneItem, Tiles, TiledTo, AllItems;
    TilesJoin(b, 0, off, stop, inodes);
    ItemsJoin(b, k * BLOCK, 0, off, stop, inodes, typed);
  }

  /** The end of a block is the start of the next. */
  lemma MovesOver(v: View, size: nat, inodes: nat, typed: bool, k: nat)
    requires Shaped(v, size) && k < |v| && CursorAt(v, size, inodes, k, BLOCK)
    ensures CursorAt(v, size, inodes, k + 1, 0)
    ensures BeforeAt(v, size, inodes, typed, k + 1, 0) == BeforeAt(v, size, inodes, typed, k, BLOCK)
  {
    assert BlockTiled(v, size, inodes, k);
  }

  lemma CursorMoves(v: View, size: nat, inodes: nat, typed: bool, pos: nat, k: nat, stop: nat)
    requires Shaped(v, size) && k == pos / BLOCK < |v| && v[k].Some? && pos % BLOCK <= stop <= End(size, k)
    requires Cursor(v, size, inodes, pos) && Tiles(v[k].value, pos % BLOCK, stop, inodes)
    ensures Reached(v, size, inodes, typed, pos, k * BLOCK + stop,
                    Items(v[k].value, k * BLOCK, pos % BLOCK, stop, inodes, typed))
  {
    hide CursorAt, BeforeAt, Shaped, Tiles, Items;
    MovesInside(v, size, inodes, typed, k, pos % BLOCK, stop);
    if stop < BLOCK {
      Position(k, stop);
    } else {
      MovesOver(v, size, inodes, typed, k);
      Position(k + 1, 0);
    }
  }

  lemma NoItems(b: seq<Byte>, base: nat, inodes: nat, typed: bool)
    ensures Tiles(b, 0, 0, inodes) && Items(b, base, 0, 0, inodes, typed) == []
  {
  }

  /** A damaged record further on in the block. */
  lemma CursorDamage(v: View, size: nat, inodes: nat, pos: nat, k: nat, stop: nat)
    requires Shaped(v, size) && k == pos / BLOCK < |v| && v[k].Some? && pos % BLOCK <= stop < End(size, k)
    requires Cursor(v, size, inodes, pos) && Tiles(v[k].value, pos % BLOCK, stop, inodes)
    requires !Sound(v[k].value, stop, End(size, k), inodes)
    ensures !BlockTiled(v, size, inodes, k)
  {
    hide Sound, Tiles, Live;
    NoItems(v[k].value, 0, inodes, false);
    TilesJoin(v[k].value, 0, pos % BLOCK, stop, inodes);
    NotTiled(v[k].value, End(size, k), inodes, stop);
  }

  /** Skipping a block that was never allocated. */
  lemma CursorSkips(v: View, size: nat, inodes: nat, typed: bool, pos: nat, k: nat)
    requires Shaped(v, size) && k == pos / BLOCK < |v| && v[k].None? && Cursor(v, size, inodes, pos)
    ensures Reached(v, size, inodes, typed, pos, (k + 1) * BLOCK, [])
  {
    hide Shaped, Items;
    Position(k + 1, 0);
    assert BlockTiled(v, size, inodes, k);
  }

  /** Reading from pos gave these items and ended at next. */
  ghost predicate Reached(v: View, size: nat, inodes: nat, typed: bool, pos: nat, next: nat, out: seq<Item>)
    requires Shaped(v, size)
  {
    && Cursor(v, size, inodes, pos) && Cursor(v, size, inodes, next)
    && Before(v, size, inodes, typed, next) == Before(v, size, inodes, typed, pos) + out
  }

  lemma ReachedThen(v: View, size: nat, inodes: nat, typed: bool, pos: nat, mid: nat, next: nat, out: seq<Item>,
                    more: seq<Item>)
    requires Shaped(v, size) && Reached(v, size, inodes, typed, pos, mid, out)
    requires Reached(v, size, inodes, typed, mid, next, more)
    ensures Reached(v, size, inodes, typed, pos, next, out + more)
  {
    hide Shaped, Cursor, Before;
    assert Before(v, size, inodes, typed, pos) + (out + more) == Before(v, size, inodes, typed, pos) + out + more;
  }

  /** Beyond the size everything has been read. */
  lemma CursorEnds(v: View, size: nat, inodes: nat, typed: bool, pos: nat)
    requires Shaped(v, size) && Cursor(v, size, inodes, pos) && pos >= size
    ensures Tiled(v, size, inodes) && Before(v, size, inodes, typed, pos) == AllItems(v, size, inodes, typed, |v|)
  {
    var k, off := pos / BLOCK, pos % BLOCK;
    LastPlace(v, size, pos);
    hide Shaped, Items, AllItems, Tiles;
    if off > 0 {
      assert BlockTiled(v, size, inodes, k);
      LastItems(v, size, inodes, typed, k);
    }
  }

  lemma LastPlace(v: View, size: nat, pos: nat)
    requires Shaped(v, size) && pos >= size && pos / BLOCK <= |v|
    requires pos % BLOCK > 0 ==> pos / BLOCK < |v| && pos % BLOCK <= End(size, pos / BLOCK)
    ensures pos % BLOCK == 0 ==> pos / BLOCK == |v|
    ensures pos % BLOCK > 0 ==> pos / BLOCK == |v| - 1 && pos % BLOCK == End(size, pos / BLOCK)
  {
  }

  lemma LastItems(v: View, size: nat, inodes: nat, typed: bool, k: nat)
    requires Shaped(v, size) && k == |v| - 1 && TiledTo(v, size, inodes, k) && BlockTiled(v, size, inodes, k)
    ensures TiledTo(v, size, inodes, k + 1)
    ensures AllItems(v, size, inodes, typed, k + 1)
         == AllItems(v, size, inodes, typed, k) + BlockItems(v, size, inodes, typed, k)
  {
    hide BlockTiled, Shaped, BlockItems;
  }
}
