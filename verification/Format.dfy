/**
The UbixFS image formatter of tools/format.c: a table of blocks, a directory, and files that
are written block after block. What was written is read back from the image alone.
*/
module Format {
  const BLOCK: nat := 4096
  const SECTOR: nat := 512
  const DIRECTORY: nat := 0x4000
  const BAT_ENTRY: nat := 16      // four words of 32 bits
  const DIR_ENTRY: nat := 284     // six words, two half words and a name of 256 bytes
  const DIR_ENTRIES: nat := 57    // as many as fit the directory
  const TWO_31: int := 0x8000_0000
  const TWO_32: int := 0x1_0000_0000

  type byte = x: int | 0 <= x < 256

  datatype BatEntry = BatEntry(attributes: nat, realSector: nat, nextBlock: int)
  datatype DirEntry = DirEntry(startCluster: nat, size: nat)

  // The image, with zeros where nothing was written.
  type Disk = map<nat, byte>

  function Get(disk: Disk, a: nat): byte { if a in disk then disk[a] else 0 }

  // The image is the same but for n bytes at a.
  ghost predicate SameBut(disk: Disk, disk': Disk, a: nat, n: nat) {
    forall x: nat :: x < a || x >= a + n ==> Get(disk', x) == Get(disk, x)
  }

  // ---------------------------------------------------------------- words on the image

  function Word(disk: Disk, a: nat): nat {
    Get(disk, a) + 256 * Get(disk, a + 1) + 65536 * Get(disk, a + 2) + 16777216 * Get(disk, a + 3)
  }

  // A word read as a signed number.
  function Signed(x: nat): int { if x >= TWO_31 then x - TWO_32 else x }

  lemma WordSame(disk: Disk, disk': Disk, at: nat, n: nat, a: nat)
    requires SameBut(disk, disk', at, n) && (a + 4 <= at || a >= at + n)
    ensures Word(disk', a) == Word(disk, a)
  {
  }

  // ---------------------------------------------------------------- reading the image

  // The tables are found through the partition information, which takes the sector before them.
  function BatSector(disk: Disk, info: nat): nat { Word(disk, info * SECTOR + 8) }

  function DirSector(disk: Disk, info: nat): nat { Word(disk, info * SECTOR + 12) }

  function EntryOf(disk: Disk, info: nat, k: nat): DirEntry {
    var a := DirSector(disk, info) * SECTOR + k * DIR_ENTRY;
    DirEntry(Word(disk, a), Word(disk, a + 4))
  }

  // Byte j of the chain of blocks that begins at b; zero behind its end.
  function ReadByte(disk: Disk, bat: nat, b: int, j: nat): byte
    decreases j
  {
    if b < 0 then 0
    else if j < BLOCK then Get(disk, (bat + Word(disk, bat * SECTOR + b * BAT_ENTRY + 4)) * SECTOR + j)
    else ReadByte(disk, bat, Signed(Word(disk, bat * SECTOR + b * BAT_ENTRY + 8)), j - BLOCK)
  }

  // The file of the k-th directory entry.
  function ReadFile(disk: Disk, info: nat, k: nat): seq<byte> {
    var e := EntryOf(disk, info, k);
    seq(e.size, j requires 0 <= j => ReadByte(disk, BatSector(disk, info), e.startCluster, j))
  }

  // ---------------------------------------------------------------- files on the image

  // Where block b lies, after the table of batSize bytes.
  function Address(start: nat, batSize: nat, b: nat): nat { start * SECTOR + batSize + b * BLOCK }

  // The blocks that a file asks for: one more than it fills, because the byte that stands for
  // its end is written too.
  function BlocksOf(size: nat): nat { size / BLOCK + 1 }

  lemma LastBlock(size: nat, blockCount: nat)
    requires blockCount * BLOCK <= size < (blockCount + 1) * BLOCK
    ensures BlocksOf(size) == blockCount + 1
  {
  }

  ghost predicate EntryOk(bat: seq<BatEntry>, batSize: nat, next: nat, b: nat)
    requires b < |bat|
  {
    && bat[b].realSector == batSize / SECTOR + b * (BLOCK / SECTOR)
    && bat[b].attributes == (if b < next then 1 else 0)
    && -1 <= bat[b].nextBlock < |bat|
    && (b >= next ==> bat[b].nextBlock == -1)
  }

  // The blocks in use are those before next.
  ghost predicate TableOk(bat: seq<BatEntry>, batSize: nat, next: nat) {
    && 4 <= next <= |bat| && batSize % SECTOR == 0
    && forall b :: 0 <= b < |bat| ==> EntryOk(bat, batSize, next, b)
  }

  // The blocks from first, count of them, are linked one to the next, and end there.
  ghost predicate Linked(bat: seq<BatEntry>, first: nat, count: nat) {
    && first + count <= |bat|
    && (forall b :: first <= b < first + count ==> bat[b].nextBlock == if b + 1 < first + count then b + 1 else -1)
  }

  // The first n bytes of data are in the blocks from first on.
  ghost predicate Stored(disk: Disk, start: nat, batSize: nat, first: nat, data: seq<byte>, n: nat) {
    n <= |data| && forall j :: 0 <= j < n ==> Get(disk, Address(start, batSize, first) + j) == data[j]
  }

  function Min(a: nat, b: nat): nat { if a < b then a else b }

  // A file with the blocks that it got.
  datatype File = File(first: nat, count: nat, data: seq<byte>)

  function StartOf(f: File): nat { if f.count == 0 then 0 else f.first }

  ghost predicate FileOk(bat: seq<BatEntry>, disk: Disk, start: nat, batSize: nat, next: nat, f: File) {
    && 4 <= f.first && f.first + f.count <= next <= |bat| && Linked(bat, f.first, f.count)
    && Stored(disk, start, batSize, f.first, f.data, Min(|f.data|, f.count * BLOCK))
  }

  // ---------------------------------------------------------------- the tables on the image

  ghost predicate BatEntryAt(disk: Disk, start: nat, bat: seq<BatEntry>, b: nat)
    requires b < |bat|
  {
    && Word(disk, start * SECTOR + b * BAT_ENTRY + 4) == bat[b].realSector
    && Signed(Word(disk, start * SECTOR + b * BAT_ENTRY + 8)) == bat[b].nextBlock
  }

  ghost predicate BatAt(disk: Disk, start: nat, bat: seq<BatEntry>, n: nat) {
    n <= |bat| && forall b :: 0 <= b < n ==> BatEntryAt(disk, start, bat, b)
  }

  ghost predicate DirEntryAt(disk: Disk, at: nat, dir: seq<DirEntry>, k: nat)
    requires k < |dir|
  {
    Word(disk, at + k * DIR_ENTRY) == dir[k].startCluster && Word(disk, at + k * DIR_ENTRY + 4) == dir[k].size
  }

  ghost predicate DirAt(disk: Disk, at: nat, dir: seq<DirEntry>, n: nat) {
    n <= |dir| && forall k :: 0 <= k < n ==> DirEntryAt(disk, at, dir, k)
  }

  ghost predicate InfoAt(disk: Disk, start: nat, batSize: nat) {
    start > 0 && BatSector(disk, start - 1) == start && DirSector(disk, start - 1) == start + batSize / SECTOR
  }

  // Following the links of a file's blocks leads to what was stored there, and then to zeros.
  lemma {:induction false} ReadLinked(bat: seq<BatEntry>, disk: Disk, start: nat, batSize: nat, next: nat,
                                      first: nat, count: nat, b: nat, j: nat)
    requires TableOk(bat, batSize, next) && BatAt(disk, start, bat, |bat|) && Linked(bat, first, count)
    requires first <= b < first + count
    ensures ReadByte(disk, start, b, j) ==
            if b * BLOCK + j < (first + count) * BLOCK then Get(disk, Address(start, batSize, b) + j) else 0
    decreases j
  {
    assert EntryOk(bat, batSize, next, b) && BatEntryAt(disk, start, bat, b);
    if j >= BLOCK && b + 1 < first + count {
      ReadLinked(bat, disk, start, batSize, next, first, count, b + 1, j - BLOCK);
    }
  }

  // Block 0 begins with the directory, and that with the number of its own first block, 0.
  lemma ReadBlockZero(bat: seq<BatEntry>, disk: Disk, start: nat, batSize: nat, next: nat, dir: seq<DirEntry>)
    requires TableOk(bat, batSize, next) && BatAt(disk, start, bat, |bat|)
    requires DirAt(disk, start * SECTOR + batSize, dir, |dir|) && |dir| > 0 && dir[0].startCluster == 0
    ensures ReadByte(disk, start, 0, 0) == 0
  {
    assert EntryOk(bat, batSize, next, 0) && BatEntryAt(disk, start, bat, 0) && DirEntryAt(disk, start * SECTOR + batSize, dir, 0);
  }

  // A file reads back from the image just as far as it got blocks.
  lemma FileReads(bat: seq<BatEntry>, disk: Disk, start: nat, batSize: nat, next: nat, dir: seq<DirEntry>, k: nat, f: File)
    requires TableOk(bat, batSize, next) && FileOk(bat, disk, start, batSize, next, f)
    requires BatAt(disk, start, bat, |bat|) && DirAt(disk, start * SECTOR + batSize, dir, |dir|) && InfoAt(disk, start, batSize)
    requires k < |dir| && dir[k] == DirEntry(StartOf(f), |f.data|) && dir[0].startCluster == 0
    ensures |ReadFile(disk, start - 1, k)| == |f.data|
    ensures |f.data| <= f.count * BLOCK ==> ReadFile(disk, start - 1, k) == f.data
    ensures |f.data| > f.count * BLOCK ==> ReadFile(disk, start - 1, k)[f.count * BLOCK] == 0
  {
    assert DirEntryAt(disk, start * SECTOR + batSize, dir, k);
    assert EntryOf(disk, start - 1, k) == dir[k];
    var read := ReadFile(disk, start - 1, k);
    if f.count == 0 {
      ReadBlockZero(bat, disk, start, batSize, next, dir);
    } else {
      forall j | 0 <= j < |f.data|
        ensures read[j] == if j < f.count * BLOCK then f.data[j] else 0
      {
        ReadLinked(bat, disk, start, batSize, next, f.first, f.count, f.first, j);
      }
    }
  }

  // The blocks that a reader goes through from block b on, as long as the links lead upward.
  function Chain(bat: seq<BatEntry>, b: nat): (r: seq<nat>)
    requires b < |bat|
    decreases |bat| - b
  {
    if b < bat[b].nextBlock < |bat| then [b] + Chain(bat, bat[b].nextBlock) else [b]
  }

  lemma {:induction false} ChainIsRange(bat: seq<BatEntry>, first: nat, count: nat, b: nat)
    requires Linked(bat, first, count) && first <= b < first + count
    ensures |Chain(bat, b)| == first + count - b
    ensures forall i :: 0 <= i < |Chain(bat, b)| ==> Chain(bat, b)[i] == b + i
    decreases first + count - b
  {
    if b < first + count - 1 {
      ChainIsRange(bat, first, count, b + 1);
    }
  }

  // ---------------------------------------------------------------- what a new file leaves alone

  // Below a block that is not the directory's, table and image are as they were, but for the
  // directory's first block, which takes what finds no other place.
  ghost predicate SameBelow(bat: seq<BatEntry>, disk: Disk, bat': seq<BatEntry>, disk': Disk, start: nat, batSize: nat, first: nat) {
    && |bat'| == |bat|
    && (forall b :: 0 <= b < first && b < |bat| ==> bat'[b] == bat[b])
    && (forall a: nat :: a < Address(start, batSize, first) && !InBlockZero(start, batSize, a) ==> Get(disk', a) == Get(disk, a))
  }

  predicate InBlockZero(start: nat, batSize: nat, a: nat) {
    Address(start, batSize, 0) <= a < Address(start, batSize, 1)
  }

  lemma SameBelowAgain(bat: seq<BatEntry>, disk: Disk, bat1: seq<BatEntry>, disk1: Disk, bat2: seq<BatEntry>, disk2: Disk,
                       start: nat, batSize: nat, first: nat)
    requires SameBelow(bat, disk, bat1, disk1, start, batSize, first)
    requires SameBelow(bat1, disk1, bat2, disk2, start, batSize, first)
    ensures SameBelow(bat, disk, bat2, disk2, start, batSize, first)
  {
  }

  lemma FileKept(bat: seq<BatEntry>, disk: Disk, bat': seq<BatEntry>, disk': Disk, start: nat, batSize: nat,
                 next: nat, next': nat, f: File)
    requires SameBelow(bat, disk, bat', disk', start, batSize, next) && next <= next' <= |bat|
    requires FileOk(bat, disk, start, batSize, next, f)
    ensures FileOk(bat', disk', start, batSize, next', f)
  {
    var n := Min(|f.data|, f.count * BLOCK);
    forall j | 0 <= j < n ensures Get(disk', Address(start, batSize, f.first) + j) == f.data[j] {
      assert Address(start, batSize, f.first) + j < Address(start, batSize, next);
    }
  }

  ghost predicate HoldsAt(bat: seq<BatEntry>, disk: Disk, dir: seq<DirEntry>, start: nat, batSize: nat, next: nat, files: seq<File>, k: nat)
    requires |files| + 2 <= |dir|
  {
    k < |files| ==> FileOk(bat, disk, start, batSize, next, files[k]) && dir[k + 2] == DirEntry(StartOf(files[k]), |files[k].data|)
  }

  predicate Before(files: seq<File>, i: nat, k: nat) {
    i < k < |files| ==> files[i].first + files[i].count <= files[k].first
  }

  // The files are on the image and in the directory, one after the other.
  ghost predicate Holds(bat: seq<BatEntry>, disk: Disk, dir: seq<DirEntry>, start: nat, batSize: nat, next: nat, files: seq<File>) {
    && |files| + 2 <= |dir| && dir[0].startCluster == 0
    && (forall k: nat :: HoldsAt(bat, disk, dir, start, batSize, next, files, k))
    && (forall i: nat, k: nat :: Before(files, i, k))
  }

  lemma FilesKept(bat: seq<BatEntry>, disk: Disk, bat': seq<BatEntry>, disk': Disk, dir: seq<DirEntry>,
                  start: nat, batSize: nat, next: nat, next': nat, files: seq<File>)
    requires SameBelow(bat, disk, bat', disk', start, batSize, next) && next <= next' <= |bat|
    requires Holds(bat, disk, dir, start, batSize, next, files)
    ensures Holds(bat', disk', dir, start, batSize, next', files)
    ensures forall k :: 0 <= k < |files| ==> files[k].first + files[k].count <= next
  {
    forall k: nat ensures HoldsAt(bat', disk', dir, start, batSize, next', files, k) {
      assert HoldsAt(bat, disk, dir, start, batSize, next, files, k);
      if k < |files| {
        FileKept(bat, disk, bat', disk', start, batSize, next, next', files[k]);
      }
    }
    forall k | 0 <= k < |files| ensures files[k].first + files[k].count <= next {
      assert HoldsAt(bat, disk, dir, start, batSize, next, files, k);
    }
  }

  lemma HoldsMore(bat: seq<BatEntry>, disk: Disk, dir: seq<DirEntry>, start: nat, batSize: nat, next: nat,
                  files: seq<File>, f: File)
    requires Holds(bat, disk, dir, start, batSize, next, files) && |files| + 2 < |dir|
    requires FileOk(bat, disk, start, batSize, next, f)
    requires forall k :: 0 <= k < |files| ==> files[k].first + files[k].count <= f.first
    ensures Holds(bat, disk, dir[|files| + 2 := DirEntry(StartOf(f), |f.data|)], start, batSize, next, files + [f])
  {
    var dir', files' := dir[|files| + 2 := DirEntry(StartOf(f), |f.data|)], files + [f];
    forall k: nat ensures HoldsAt(bat, disk, dir', start, batSize, next, files', k) {
      assert HoldsAt(bat, disk, dir, start, batSize, next, files, k);
    }
    forall i: nat, k: nat ensures Before(files', i, k) {
      assert Before(files, i, k);
    }
  }

  // What is written before block 4 does not touch a file.
  lemma FilesUntouched(bat: seq<BatEntry>, disk: Disk, disk': Disk, dir: seq<DirEntry>, start: nat, batSize: nat,
                       next: nat, files: seq<File>)
    requires Holds(bat, disk, dir, start, batSize, next, files)
    requires forall a: nat :: a >= Address(start, batSize, 4) ==> Get(disk', a) == Get(disk, a)
    ensures Holds(bat, disk', dir, start, batSize, next, files)
  {
    forall k: nat ensures HoldsAt(bat, disk', dir, start, batSize, next, files, k) {
      assert HoldsAt(bat, disk, dir, start, batSize, next, files, k);
    }
  }

  // The blocks of a file's chain are exactly its own.
  lemma FileChain(bat: seq<BatEntry>, disk: Disk, start: nat, batSize: nat, next: nat, f: File, b: nat)
    requires FileOk(bat, disk, start, batSize, next, f) && f.count > 0
    ensures b in Chain(bat, f.first) <==> f.first <= b < f.first + f.count
  {
    var chain := Chain(bat, f.first);
    ChainIsRange(bat, f.first, f.count, f.first);
    if f.first <= b < f.first + f.count {
      assert chain[b - f.first] == b;
    }
  }

  // The chains of two files that got blocks have none in common, and none of the directory's.
  lemma ChainsDisjoint(bat: seq<BatEntry>, disk: Disk, dir: seq<DirEntry>, start: nat, batSize: nat, next: nat,
                       files: seq<File>, i: nat, k: nat, b: nat)
    requires Holds(bat, disk, dir, start, batSize, next, files) && i < |files| && k < |files|
    requires files[i].count > 0 && files[k].count > 0
    ensures dir[i + 2].startCluster < |bat| && dir[k + 2].startCluster < |bat|
    ensures b in Chain(bat, dir[i + 2].startCluster) ==> b >= 4
    ensures i != k && b in Chain(bat, dir[i + 2].startCluster) ==> b !in Chain(bat, dir[k + 2].startCluster)
  {
    assert HoldsAt(bat, disk, dir, start, batSize, next, files, i) && HoldsAt(bat, disk, dir, start, batSize, next, files, k);
    assert Before(files, i, k) && Before(files, k, i);
    FileChain(bat, disk, start, batSize, next, files[i], b);
    FileChain(bat, disk, start, batSize, next, files[k], b);
  }

  // ---------------------------------------------------------------- who gets how much

  // The blocks that are free after the first k files of a list.
  function FreeAfter(list: seq<seq<byte>>, k: nat, free: nat): nat
    requires k <= |list|
  {
    if k == 0 then free
    else
      var before := FreeAfter(list, k - 1, free);
      before - Min(BlocksOf(|list[k - 1]|), before)
  }

  // The blocks that the k-th file gets.
  function Got(list: seq<seq<byte>>, k: nat, free: nat): nat
    requires k < |list|
  {
    Min(BlocksOf(|list[k]|), FreeAfter(list, k, free))
  }

  predicate Fits(list: seq<seq<byte>>, k: nat, free: nat)
    requires k < |list|
  {
    |list[k]| <= Got(list, k, free) * BLOCK
  }

  // Every file gets the blocks that its bytes fill. The byte for its end may go elsewhere.
  predicate AllFit(list: seq<seq<byte>>, free: nat) {
    forall k :: 0 <= k < |list| ==> Fits(list, k, free)
  }

  // ---------------------------------------------------------------- the program

  // The table after block i, the first free one, was taken and linked to c.
  function Taken(bat: seq<BatEntry>, c: int, i: nat): seq<BatEntry>
    requires -1 <= c < i < |bat|
  {
    var linked := if c == -1 then bat else bat[c := bat[c].(nextBlock := i)];
    linked[i := linked[i].(attributes := 1)]
  }

  lemma TakenOk(bat: seq<BatEntry>, batSize: nat, c: int, i: nat)
    requires TableOk(bat, batSize, i) && -1 <= c < i < |bat|
    ensures TableOk(Taken(bat, c, i), batSize, i + 1) && Taken(bat, c, i)[i].nextBlock == -1
  {
    var bat', next := Taken(bat, c, i), i + 1;
    forall b | 0 <= b < |bat| ensures EntryOk(bat', batSize, next, b) {
      assert EntryOk(bat, batSize, i, b);
    }
    assert EntryOk(bat, batSize, i, i);
  }

  // A word without its lowest byte, without its two lowest, and without its three lowest.
  method HighBytes(u0: nat) returns (u1: nat, u2: nat, u3: nat)
    requires u0 < TWO_32
    ensures u3 < 256 && u0 == u0 % 256 + 256 * (u1 % 256) + 65536 * (u2 % 256) + 16777216 * u3
  {
    u1 := u0 / 256;
    u2 := u1 / 256;
    u3 := u2 / 256;
  }

  // The table before a file is written: the directory has the first four blocks.
  function EmptyTable(blocks: nat, batSize: nat): (bat: seq<BatEntry>) {
    seq(blocks, i requires 0 <= i =>
      BatEntry(if i < 4 then 1 else 0, batSize / SECTOR + i * (BLOCK / SECTOR), if i < 3 then i + 1 else -1))
  }

  lemma EmptyTableOk(blocks: nat, batSize: nat)
    requires blocks >= 4 && batSize % SECTOR == 0
    ensures TableOk(EmptyTable(blocks, batSize), batSize, 4)
  {
    var bat, next := EmptyTable(blocks, batSize), 4;
    forall b | 0 <= b < |bat| ensures EntryOk(bat, batSize, next, b) {
    }
  }

  // The bytes of the table, in whole sectors.
  function TableSize(blocks: nat): nat { (BAT_ENTRY * blocks + SECTOR - 1) / SECTOR * SECTOR }

  // The image can be addressed with 31 bits, and the table holds its entries.
  ghost predicate Small(start: nat, batSize: nat, blocks: nat) {
    start * SECTOR + batSize + blocks * BLOCK < TWO_31 && BAT_ENTRY * blocks <= batSize
  }

  // The directory's numbers fit their words.
  ghost predicate DirSmall(dir: seq<DirEntry>) {
    |dir| == DIR_ENTRIES && forall k :: 0 <= k < |dir| ==> dir[k].startCluster < TWO_31 && dir[k].size < TWO_32
  }

  ghost predicate WrittenAt(files: seq<File>, list: seq<seq<byte>>, i: nat, free: nat)
    requires |files| <= |list|
  {
    i < |files| ==> files[i].data == list[i] && files[i].count == Got(list, i, free)
  }

  // The first k files of a list are written, each with the blocks that were left for it.
  ghost predicate Written(files: seq<File>, list: seq<seq<byte>>, k: nat, free: nat) {
    |files| == k <= |list| && forall i: nat :: WrittenAt(files, list, i, free)
  }

  // What reading the k-th file of a list from the image gives.
  ghost predicate ReadsBack(disk: Disk, info: nat, list: seq<seq<byte>>, k: nat, free: nat)
    requires k < |list|
  {
    var read, most := ReadFile(disk, info, k + 2), Got(list, k, free) * BLOCK;
    && |read| == |list[k]|
    && (Fits(list, k, free) ==> read == list[k])
    && (!Fits(list, k, free) ==> read[most] == 0)
  }

  ghost predicate AllReadBack(disk: Disk, info: nat, list: seq<seq<byte>>, free: nat) {
    forall k :: 0 <= k < |list| ==> ReadsBack(disk, info, list, k, free)
  }

  ghost predicate IsRead(disk: Disk, info: nat, list: seq<seq<byte>>, k: nat)
    requires k < |list|
  {
    ReadFile(disk, info, k + 2) == list[k]
  }

  ghost predicate AllRead(disk: Disk, info: nat, list: seq<seq<byte>>) {
    forall k :: 0 <= k < |list| ==> IsRead(disk, info, list, k)
  }

  predicate NoZeros(list: seq<seq<byte>>) {
    forall k :: 0 <= k < |list| ==> 0 !in list[k]
  }

  lemma OneReadExactly(disk: Disk, info: nat, list: seq<seq<byte>>, k: nat, free: nat)
    requires k < |list| && ReadsBack(disk, info, list, k, free)
    ensures Fits(list, k, free) ==> IsRead(disk, info, list, k)
    ensures IsRead(disk, info, list, k) && 0 !in list[k] ==> Fits(list, k, free)
  {
  }

  // The files come back from the image if the blocks suffice, and if they do not, then only
  // because of zeros in the part of a file that was lost.
  ghost predicate ReadExactly(disk: Disk, info: nat, list: seq<seq<byte>>, free: nat) {
    && (AllFit(list, free) ==> AllRead(disk, info, list))
    && (NoZeros(list) ==> (AllRead(disk, info, list) <==> AllFit(list, free)))
  }

  lemma ReadBackExactly(disk: Disk, info: nat, list: seq<seq<byte>>, free: nat)
    requires AllReadBack(disk, info, list, free)
    ensures ReadExactly(disk, info, list, free)
  {
    forall k | 0 <= k < |list|
      ensures Fits(list, k, free) ==> IsRead(disk, info, list, k)
      ensures IsRead(disk, info, list, k) && 0 !in list[k] ==> Fits(list, k, free)
    {
      OneReadExactly(disk, info, list, k, free);
    }
  }

  lemma WrittenMore(files: seq<File>, list: seq<seq<byte>>, k: nat, free: nat, f: File)
    requires Written(files, list, k, free) && k < |list| && f.data == list[k] && f.count == Got(list, k, free)
    ensures Written(files + [f], list, k + 1, free)
    ensures FreeAfter(list, k + 1, free) == FreeAfter(list, k, free) - f.count
  {
    var files' := files + [f];
    forall i: nat ensures WrittenAt(files', list, i, free) {
      assert WrittenAt(files, list, i, free);
    }
  }

  // Files that are on the image under their directory entries read back.
  lemma FilesReadBack(bat: seq<BatEntry>, disk: Disk, dir: seq<DirEntry>, start: nat, batSize: nat, next: nat,
                      files: seq<File>, list: seq<seq<byte>>, free: nat)
    requires TableOk(bat, batSize, next) && Holds(bat, disk, dir, start, batSize, next, files)
    requires Written(files, list, |list|, free)
    requires BatAt(disk, start, bat, |bat|) && DirAt(disk, start * SECTOR + batSize, dir, |dir|) && InfoAt(disk, start, batSize)
    ensures AllReadBack(disk, start - 1, list, free) && ReadExactly(disk, start - 1, list, free)
  {
    var info := start - 1;
    forall k | 0 <= k < |list| ensures ReadsBack(disk, info, list, k, free) {
      assert HoldsAt(bat, disk, dir, start, batSize, next, files, k) && WrittenAt(files, list, k, free);
      FileReads(bat, disk, start, batSize, next, dir, k + 2, files[k]);
    }
    ReadBackExactly(disk, info, list, free);
  }

  lemma BatKept(disk: Disk, disk': Disk, start: nat, bat: seq<BatEntry>, b: nat, off: nat, n: nat)
    requires BatAt(disk, start, bat, b) && SameBut(disk, disk', start * SECTOR + off, n) && b * BAT_ENTRY <= off
    ensures BatAt(disk', start, bat, b)
  {
    forall i | 0 <= i < b ensures BatEntryAt(disk', start, bat, i) {
      assert BatEntryAt(disk, start, bat, i);
      WordSame(disk, disk', start * SECTOR + off, n, start * SECTOR + i * BAT_ENTRY + 4);
      WordSame(disk, disk', start * SECTOR + off, n, start * SECTOR + i * BAT_ENTRY + 8);
    }
  }

  // The directory and the table overwrite neither each other, nor a file, nor the partition
  // information.
  lemma TablesStay(disk0: Disk, disk1: Disk, disk2: Disk, disk3: Disk, bat: seq<BatEntry>, dir: seq<DirEntry>,
                   start: nat, batSize: nat, next: nat, files: seq<File>)
    requires Holds(bat, disk1, dir, start, batSize, next, files) && InfoAt(disk0, start, batSize) && |dir| == DIR_ENTRIES
    requires forall a: nat :: a < start * SECTOR ==> Get(disk1, a) == Get(disk0, a)
    requires SameBut(disk1, disk2, start * SECTOR + batSize, DIRECTORY) && SameBut(disk2, disk3, start * SECTOR, batSize)
    requires DirAt(disk2, start * SECTOR + batSize, dir, |dir|)
    ensures Holds(bat, disk3, dir, start, batSize, next, files) && InfoAt(disk3, start, batSize)
    ensures DirAt(disk3, start * SECTOR + batSize, dir, |dir|)
  {
    FilesUntouched(bat, disk1, disk3, dir, start, batSize, next, files);
    DirSame(disk2, disk3, start * SECTOR + batSize, dir, start * SECTOR, batSize);
    InfoSame(disk0, disk1, start, batSize);
    InfoSame(disk1, disk2, start, batSize);
    InfoSame(disk2, disk3, start, batSize);
  }

  lemma InfoSame(disk: Disk, disk': Disk, start: nat, batSize: nat)
    requires InfoAt(disk, start, batSize) && forall a: nat :: a < start * SECTOR ==> Get(disk', a) == Get(disk, a)
    ensures InfoAt(disk', start, batSize)
  {
  }

  lemma DirKept(disk: Disk, disk': Disk, at: nat, dir: seq<DirEntry>, k: nat)
    requires k < |dir| && DirAt(disk, at, dir, k) && SameBut(disk, disk', at + k * DIR_ENTRY, DIR_ENTRY)
    requires DirEntryAt(disk', at, dir, k)
    ensures DirAt(disk', at, dir, k + 1)
  {
    forall i | 0 <= i < k ensures DirEntryAt(disk', at, dir, i) {
      assert DirEntryAt(disk, at, dir, i);
      WordSame(disk, disk', at + k * DIR_ENTRY, DIR_ENTRY, at + i * DIR_ENTRY);
      WordSame(disk, disk', at + k * DIR_ENTRY, DIR_ENTRY, at + i * DIR_ENTRY + 4);
    }
  }

  // What is written elsewhere leaves the directory alone.
  lemma DirSame(disk: Disk, disk': Disk, at: nat, dir: seq<DirEntry>, a: nat, n: nat)
    requires DirAt(disk, at, dir, |dir|) && SameBut(disk, disk', a, n)
    requires a + n <= at || at + |dir| * DIR_ENTRY <= a
    ensures DirAt(disk', at, dir, |dir|)
  {
    forall i | 0 <= i < |dir| ensures DirEntryAt(disk', at, dir, i) {
      assert DirEntryAt(disk, at, dir, i);
      WordSame(disk, disk', a, n, at + i * DIR_ENTRY);
      WordSame(disk, disk', a, n, at + i * DIR_ENTRY + 4);
    }
  }

  // The address of the counter-th byte of a file: behind those before it, or in block 0.
  function Place(start: nat, batSize: nat, first: nat, counter: nat, blockCount: nat, blocks: nat): nat
    requires blockCount * BLOCK <= counter
  {
    Address(start, batSize, if first + blockCount < blocks then first + blockCount else 0) + (counter - blockCount * BLOCK)
  }

  lemma StoredStays(disk: Disk, disk': Disk, start: nat, batSize: nat, first: nat, data: seq<byte>, counter: nat,
                    blockCount: nat, n: nat, blocks: nat, c: byte)
    requires 4 <= first && blockCount * BLOCK <= counter < (blockCount + 1) * BLOCK && n <= counter
    requires Stored(disk, start, batSize, first, data, n)
    requires disk' == disk[Place(start, batSize, first, counter, blockCount, blocks) := c]
    ensures Stored(disk', start, batSize, first, data, n)
    ensures forall a: nat :: a < Address(start, batSize, first) && !InBlockZero(start, batSize, a) ==> Get(disk', a) == Get(disk, a)
  {
  }

  lemma StoredMore(disk: Disk, disk': Disk, start: nat, batSize: nat, first: nat, data: seq<byte>, counter: nat,
                   blockCount: nat, count: nat, count': nat, blocks: nat)
    requires 4 <= first <= blocks && blockCount * BLOCK <= counter < (blockCount + 1) * BLOCK && counter <= |data|
    requires Stored(disk, start, batSize, first, data, Min(Min(counter, |data|), count * BLOCK))
    requires count <= count' == Min(blockCount + 1, blocks - first) && (count < count' ==> count == blockCount && counter == count * BLOCK)
    requires disk' == disk[Place(start, batSize, first, counter, blockCount, blocks) := if counter < |data| then data[counter] else 255]
    ensures Stored(disk', start, batSize, first, data, Min(Min(counter + 1, |data|), count' * BLOCK))
    ensures forall a: nat :: a < Address(start, batSize, first) && !InBlockZero(start, batSize, a) ==> Get(disk', a) == Get(disk, a)
  {
    var n := Min(Min(counter, |data|), count * BLOCK);
    var c: byte := if counter < |data| then data[counter] else 255;
    StoredStays(disk, disk', start, batSize, first, data, counter, blockCount, n, blocks, c);
    forall j | 0 <= j < Min(Min(counter + 1, |data|), count' * BLOCK)
      ensures Get(disk', Address(start, batSize, first) + j) == data[j]
    {
      if j < n {
        assert Get(disk', Address(start, batSize, first) + j) == data[j];
      } else {
        assert j == counter && first + blockCount < blocks;
      }
    }
  }

  class Formatter {
    const start: nat        // the first sector after the partition information
    const batSize: nat
    var bat: seq<BatEntry>
    var dir: seq<DirEntry>
    var disk: Disk
    var pos: nat            // where the next byte is written
    var file: nat           // the next directory entry
    ghost var next: nat
    ghost var files: seq<File>

    ghost predicate Valid()
      reads this
    {
      TableOk(bat, batSize, next) && Holds(bat, disk, dir, start, batSize, next, files) && file == |files| + 2
    }

    // The tables before a file is written, and the partition information.
    constructor (start: nat, sectors: nat)
      requires start > 0 && sectors * SECTOR / BLOCK >= 4
      requires start * SECTOR + TableSize(sectors * SECTOR / BLOCK) + sectors * SECTOR < TWO_31
      ensures this.start == start && |bat| == sectors * SECTOR / BLOCK
      ensures Valid() && next == 4 && files == [] && Small(start, batSize, |bat|) && DirSmall(dir) && InfoAt(disk, start, batSize)
    {
      var blocks := sectors * SECTOR / BLOCK;
      var size := TableSize(blocks);
      this.start, batSize := start, size;
      bat := EmptyTable(blocks, size);
      dir := seq(DIR_ENTRIES, i => DirEntry(0, if i < 2 then DIRECTORY else 0));
      disk, file := map[], 2;
      next, files := 4, [];
      EmptyTableOk(blocks, size);
      new;
      WriteInfo(sectors);
    }

    // The partition information goes to the sector before the table.
    method WriteInfo(sectors: nat)
      requires start > 0 && sectors < TWO_31 && start + batSize / SECTOR < TWO_31
      modifies this`disk, this`pos
      ensures InfoAt(disk, start, batSize)
    {
      var at := (start - 1) * SECTOR;
      pos := at;
      PutWords(sectors, start);
      PutWords(start, start + batSize / SECTOR);
      ghost var before := disk;
      PutAny(SECTOR - 16);
      WordSame(before, disk, at + 16, SECTOR - 16, at + 8);
      WordSame(before, disk, at + 16, SECTOR - 16, at + 12);
    }

    // findFreeBlock: the first free block, taken and linked to cBlock; 0 if there is none.
    method FindFreeBlock(cBlock: int) returns (i: nat)
      requires TableOk(bat, batSize, next) && -1 <= cBlock < next
      modifies this`bat, this`next
      ensures old(next) == |old(bat)| ==> i == 0 && bat == old(bat) && next == old(next)
      ensures old(next) < |old(bat)| ==>
                && i == old(next) && next == i + 1 && TableOk(bat, batSize, next)
                && bat == Taken(old(bat), cBlock, i)
    {
      i := 1;
      while i < |bat|
        invariant 1 <= i <= next && unchanged(this)
        decreases |bat| - i
      {
        assert EntryOk(bat, batSize, next, i);
        if bat[i].attributes == 0 {
          TakenOk(bat, batSize, cBlock, i);
          if cBlock != -1 {
            bat := bat[cBlock := bat[cBlock].(nextBlock := i)];
          }
          bat := bat[i := bat[i].(attributes := 1)];
          next := i + 1;
          return;
        }
        i := i + 1;
      }
      return 0;
    }

    method Seek(block: nat)
      requires TableOk(bat, batSize, next) && block < |bat|
      modifies this`pos
      ensures pos == Address(start, batSize, block)
    {
      assert EntryOk(bat, batSize, next, block);
      pos := (start + bat[block].realSector) * SECTOR;
    }

    method PutByte(c: byte)
      modifies this`disk, this`pos
      ensures pos == old(pos) + 1 && disk == old(disk)[old(pos) := c]
    {
      disk := disk[pos := c];
      pos := pos + 1;
    }

    // What is on the image while a file is copied: counter bytes of it, or all of it and one
    // more, as far as the blocks go that it has got; the rest is written to block 0.
    ghost predicate Copying(first: nat, data: seq<byte>, counter: nat, blockCount: nat, block: nat)
      reads this
    {
      && TableOk(bat, batSize, next) && first <= next && Linked(bat, first, next - first)
      && blockCount * BLOCK <= counter <= (blockCount + 1) * BLOCK && (counter > 0 ==> blockCount * BLOCK < counter)
      && counter <= |data| + 1
      && next - first == Min(blockCount + 1, |bat| - first)
      && block == (if first + blockCount < |bat| then first + blockCount else 0)
      && pos == Address(start, batSize, block) + (counter - blockCount * BLOCK)
      && Stored(disk, start, batSize, first, data, Min(Min(counter, |data|), (next - first) * BLOCK))
    }

    // A new block, if the last one is full.
    method NextBlock(ghost first: nat, ghost data: seq<byte>, ghost counter: nat, ghost blockCount: nat, block: nat) returns (block': nat)
      requires Copying(first, data, counter, blockCount, block) && first >= 4
      requires counter - blockCount * BLOCK == BLOCK && counter <= |data|
      modifies this`bat, this`next, this`pos
      ensures TableOk(bat, batSize, next) && first <= next && Linked(bat, first, next - first)
      ensures next - first == Min(blockCount + 2, |bat| - first) && old(next) <= next
      ensures block' == (if first + blockCount + 1 < |bat| then first + blockCount + 1 else 0)
      ensures pos == Address(start, batSize, block')
      ensures |bat| == |old(bat)| && forall b :: 0 <= b < first && b < |bat| ==> bat[b] == old(bat[b])
    {
      if next < |bat| {
        TakenOk(bat, batSize, block, next);
      }
      block' := FindFreeBlock(block);
      Seek(block');
    }

    // One byte of the copying loop, with a new block if the last one is full.
    method CopyByte(ghost first: nat, data: seq<byte>, counter: nat, blockCount: nat, block: nat)
      returns (blockCount': nat, block': nat)
      requires Copying(first, data, counter, blockCount, block) && counter <= |data| && 4 <= first
      modifies this`bat, this`next, this`disk, this`pos
      ensures Copying(first, data, counter + 1, blockCount', block')
      ensures SameBelow(old(bat), old(disk), bat, disk, start, batSize, first)
    {
      blockCount', block' := blockCount, block;
      if counter - blockCount * BLOCK == BLOCK {
        block' := NextBlock(first, data, counter, blockCount, block);
        blockCount' := blockCount + 1;
      }
      ghost var before := disk;
      PutByte(if counter < |data| then data[counter] else 255);
      StoredMore(before, disk, start, batSize, first, data, counter, blockCount', old(next) - first, next - first, |bat|);
    }

    // The zeros that fill up the last sector stay in the last block, or in block 0.
    method Pad(ghost first: nat, ghost data: seq<byte>, counter: nat, ghost blockCount: nat, ghost block: nat)
      requires Copying(first, data, counter, blockCount, block) && counter == |data| + 1 && 4 <= first
      modifies this`disk, this`pos
      ensures Stored(disk, start, batSize, first, data, Min(|data|, (next - first) * BLOCK))
      ensures SameBelow(bat, old(disk), bat, disk, start, batSize, first)
    {
      var i := 0;
      while (counter + i) % SECTOR != 0
        invariant pos == Address(start, batSize, block) + (counter + i - blockCount * BLOCK)
        invariant counter + i <= (blockCount + 1) * BLOCK
        invariant Stored(disk, start, batSize, first, data, Min(|data|, (next - first) * BLOCK))
        invariant SameBelow(bat, old(disk), bat, disk, start, batSize, first)
        decreases (blockCount + 1) * BLOCK - (counter + i)
      {
        assert counter + i < (blockCount + 1) * BLOCK by {
          assert (blockCount + 1) * BLOCK % SECTOR == 0;
        }
        ghost var before := disk;
        PutByte(0);
        StoredStays(before, disk, start, batSize, first, data, counter + i, blockCount, Min(|data|, (next - first) * BLOCK), |bat|, 0);
        i := i + 1;
      }
    }

    // The first block of a file, before its first byte.
    method FirstBlock(ghost data: seq<byte>) returns (block: nat)
      requires TableOk(bat, batSize, next)
      modifies this`bat, this`next, this`pos
      ensures Copying(old(next), data, 0, 0, block) && block == (if old(next) < |old(bat)| then old(next) else 0)
      ensures SameBelow(old(bat), disk, bat, disk, start, batSize, old(next))
    {
      if next < |bat| {
        TakenOk(bat, batSize, -1, next);
      }
      block := FindFreeBlock(-1);
      Seek(block);
    }

    // The copying of one file, from its first free block on.
    method CopyFile(data: seq<byte>) returns (block0: nat, counter: nat)
      requires TableOk(bat, batSize, next)
      modifies this`bat, this`next, this`disk, this`pos
      ensures |bat| == |old(bat)| && TableOk(bat, batSize, next)
      ensures next == old(next) + Min(BlocksOf(|data|), |old(bat)| - old(next))
      ensures counter == |data| + 1 && block0 == StartOf(File(old(next), next - old(next), data))
      ensures FileOk(bat, disk, start, batSize, next, File(old(next), next - old(next), data))
      ensures SameBelow(old(bat), old(disk), bat, disk, start, batSize, old(next))
    {
      ghost var first := next;
      var blockCount := 0;
      counter := 0;
      var block := FirstBlock(data);
      block0 := block;
      while counter <= |data|
        invariant counter <= |data| + 1 && Copying(first, data, counter, blockCount, block)
        invariant SameBelow(old(bat), old(disk), bat, disk, start, batSize, first)
      {
        ghost var bat1, disk1 := bat, disk;
        blockCount, block := CopyByte(first, data, counter, blockCount, block);
        SameBelowAgain(old(bat), old(disk), bat1, disk1, bat, disk, start, batSize, first);
        counter := counter + 1;
      }
      LastBlock(|data|, blockCount);
      ghost var disk2 := disk;
      Pad(first, data, counter, blockCount, block);
      SameBelowAgain(old(bat), old(disk), bat, disk2, bat, disk, start, batSize, first);
    }

    // The body of the loop over the files.
    method WriteFile(data: seq<byte>)
      requires Valid() && |files| + 2 < |dir| && Small(start, batSize, |bat|) && DirSmall(dir) && |data| < TWO_32
      modifies this
      ensures Valid() && |bat| == |old(bat)| && DirSmall(dir)
      ensures var count := Min(BlocksOf(|data|), |bat| - old(next));
        files == old(files) + [File(old(next), count, data)] && next == old(next) + count
      ensures forall a: nat :: a < start * SECTOR ==> Get(disk, a) == Get(old(disk), a)
    {
      ghost var bat0, disk0, first := bat, disk, next;
      var block, counter := CopyFile(data);
      ghost var f := File(first, next - first, data);
      FilesKept(bat0, disk0, bat, disk, dir, start, batSize, first, next, files);
      HoldsMore(bat, disk, dir, start, batSize, next, files, f);
      dir := dir[file := DirEntry(block, counter - 1)];
      file := file + 1;
      files := files + [f];
    }

    // The four bytes of a word, the lowest first.
    method PutWord(x: int)
      requires -TWO_31 <= x < TWO_32
      modifies this`disk, this`pos
      ensures pos == old(pos) + 4 && Word(disk, old(pos)) == (if x < 0 then x + TWO_32 else x)
      ensures SameBut(old(disk), disk, old(pos), 4)
    {
      var u0: nat := if x < 0 then x + TWO_32 else x;
      var u1, u2, u3 := HighBytes(u0);
      ghost var at := pos;
      PutByte(u0 % 256);
      PutByte(u1 % 256);
      PutByte(u2 % 256);
      PutByte(u3);
      assert Get(disk, at) == u0 % 256 && Get(disk, at + 1) == u1 % 256 && Get(disk, at + 2) == u2 % 256 && Get(disk, at + 3) == u3;
    }

    method PutWords(x: int, y: int)
      requires 0 <= x < TWO_32 && -TWO_31 <= y < TWO_32
      modifies this`disk, this`pos
      ensures pos == old(pos) + 8 && SameBut(old(disk), disk, old(pos), 8)
      ensures Word(disk, old(pos)) == x && Word(disk, old(pos) + 4) == (if y < 0 then y + TWO_32 else y)
    {
      PutWord(x);
      ghost var before := disk;
      PutWord(y);
      WordSame(before, disk, old(pos) + 4, 4, old(pos));
    }

    // Bytes that the model does not look at.
    method PutAny(n: nat)
      modifies this`disk, this`pos
      ensures pos == old(pos) + n && SameBut(old(disk), disk, old(pos), n)
    {
      var i := 0;
      while i < n
        invariant i <= n && pos == old(pos) + i && SameBut(old(disk), disk, old(pos), n)
      {
        var c: byte := *;
        PutByte(c);
        i := i + 1;
      }
    }

    method PutDirEntry(k: nat)
      requires k < |dir| && dir[k].startCluster < TWO_32 && dir[k].size < TWO_32
      modifies this`disk, this`pos
      ensures pos == old(pos) + DIR_ENTRY && SameBut(old(disk), disk, old(pos), DIR_ENTRY)
      ensures Word(disk, old(pos)) == dir[k].startCluster && Word(disk, old(pos) + 4) == dir[k].size
    {
      PutWords(dir[k].startCluster, dir[k].size);
      PutAny(DIR_ENTRY - 8);
    }

    // The directory goes to its four blocks.
    method WriteDirectory()
      requires DirSmall(dir)
      modifies this`disk, this`pos
      ensures DirAt(disk, start * SECTOR + batSize, dir, |dir|)
      ensures SameBut(old(disk), disk, start * SECTOR + batSize, DIRECTORY)
    {
      ghost var at := start * SECTOR + batSize;
      pos := start * SECTOR + batSize;
      var k := 0;
      while k < |dir|
        invariant k <= |dir| && pos == at + k * DIR_ENTRY
        invariant DirAt(disk, at, dir, k) && SameBut(old(disk), disk, at, k * DIR_ENTRY)
      {
        ghost var before := disk;
        PutDirEntry(k);
        DirKept(before, disk, at, dir, k);
        k := k + 1;
      }
      ghost var before := disk;
      PutAny(DIRECTORY - DIR_ENTRIES * DIR_ENTRY);
      DirSame(before, disk, at, dir, at + DIR_ENTRIES * DIR_ENTRY, DIRECTORY - DIR_ENTRIES * DIR_ENTRY);
    }

    method PutBatEntry(b: nat)
      requires b < |bat| && bat[b].realSector < TWO_31 && -1 <= bat[b].nextBlock < TWO_31
      modifies this`disk, this`pos
      ensures pos == old(pos) + BAT_ENTRY && SameBut(old(disk), disk, old(pos), BAT_ENTRY)
      ensures Word(disk, old(pos) + 4) == bat[b].realSector && Signed(Word(disk, old(pos) + 8)) == bat[b].nextBlock
    {
      PutAny(4);
      PutWords(bat[b].realSector, bat[b].nextBlock);
      PutAny(4);
    }

    // The table goes before the directory.
    method WriteTable()
      requires TableOk(bat, batSize, next) && Small(start, batSize, |bat|)
      modifies this`disk, this`pos
      ensures BatAt(disk, start, bat, |bat|)
      ensures SameBut(old(disk), disk, start * SECTOR, batSize)
    {
      pos := start * SECTOR;
      var b := 0;
      while b < |bat|
        invariant b <= |bat| && pos == start * SECTOR + b * BAT_ENTRY
        invariant BatAt(disk, start, bat, b) && SameBut(old(disk), disk, start * SECTOR, b * BAT_ENTRY)
      {
        assert EntryOk(bat, batSize, next, b);
        ghost var before := disk;
        PutBatEntry(b);
        BatKept(before, disk, start, bat, b, b * BAT_ENTRY, BAT_ENTRY);
        b := b + 1;
      }
      ghost var before := disk;
      PutAny(batSize - BAT_ENTRY * |bat|);
      BatKept(before, disk, start, bat, b, b * BAT_ENTRY, batSize - BAT_ENTRY * |bat|);
    }

    // The loop over the files.
    method WriteFiles(list: seq<seq<byte>>)
      requires Valid() && next == 4 && files == [] && Small(start, batSize, |bat|) && DirSmall(dir) && |list| + 2 <= |dir|
      requires forall k :: 0 <= k < |list| ==> |list[k]| < TWO_32
      modifies this
      ensures Valid() && |bat| == |old(bat)| && DirSmall(dir) && Written(files, list, |list|, |old(bat)| - 4)
      ensures forall a: nat :: a < start * SECTOR ==> Get(disk, a) == Get(old(disk), a)
    {
      ghost var free: nat := |bat| - 4;
      var x := 0;
      while x < |list|
        invariant x <= |list| && Valid() && |bat| == free + 4 && DirSmall(dir)
        invariant Written(files, list, x, free) && |bat| - next == FreeAfter(list, x, free)
        invariant forall a: nat :: a < start * SECTOR ==> Get(disk, a) == Get(old(disk), a)
      {
        ghost var files0, f := files, File(next, Got(list, x, free), list[x]);
        WriteFile(list[x]);
        WrittenMore(files0, list, x, free, f);
        assert files == files0 + [f];
        x := x + 1;
      }
      assert x == |list| && free == |old(bat)| - 4;
    }

    // main, after the tables were set up: each file reads back from the image as far as it got
    // blocks, and a file that got too few reads as zero from there on.
    method Format(list: seq<seq<byte>>)
      requires Valid() && next == 4 && files == [] && Small(start, batSize, |bat|) && DirSmall(dir) && InfoAt(disk, start, batSize)
      requires |list| + 2 <= DIR_ENTRIES && forall k :: 0 <= k < |list| ==> |list[k]| < TWO_32
      modifies this
      ensures Valid() && |bat| == |old(bat)| && Written(files, list, |list|, |old(bat)| - 4)
      ensures AllReadBack(disk, start - 1, list, |old(bat)| - 4) && ReadExactly(disk, start - 1, list, |old(bat)| - 4)
    {
      ghost var disk0, free: nat := disk, |bat| - 4;
      WriteFiles(list);
      ghost var disk1 := disk;
      WriteDirectory();
      ghost var disk2 := disk;
      WriteTable();
      TablesStay(disk0, disk1, disk2, disk, bat, dir, start, batSize, next, files);
      FilesReadBack(bat, disk, dir, start, batSize, next, files, list, free);
    }
  }
}
