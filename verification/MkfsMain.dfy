/** The main function of mkfs/mkfs.c: the layout, the root directory and the files in it, and the file system that
    starts from the result. */
module MkfsMain {
  import opened Blocks
  import opened Inodes
  import opened Capacity
  import opened FileSys
  import opened Mkfs

  const NINODES: nat := 200
  const LOGBLOCKS: nat := 30
  const ROOT: nat := 1
  const DIRSIZ: nat := 14
  const T_DIR: nat := 1
  const T_FILE: nat := 2

  /** Boot block, super block, log, inode blocks and bitmap come before the data. */
  function Layout(fssize: nat): (sb: Super) {
    var inodestart := 2 + LOGBLOCKS;
    var bmapstart := inodestart + NINODES / 16 + 1;
    Super(fssize, inodestart, bmapstart, bmapstart + fssize / 8192 + 1)
  }

  /** The parts of the layout follow each other without gap, and each is long enough for what it has to hold, and at most
      one block longer. */
  lemma LayoutFits(fssize: nat)
    ensures var sb := Layout(fssize);
      && sb.size == fssize && sb.inodestart == 2 + LOGBLOCKS && sb.inodestart < sb.bmapstart < sb.nmeta
      && 16 * (sb.bmapstart - sb.inodestart - 1) <= NINODES <= 16 * (sb.bmapstart - sb.inodestart)
      && 8192 * (sb.nmeta - sb.bmapstart - 1) <= fssize <= 8192 * (sb.nmeta - sb.bmapstart)
  {
  }

  /** With it, every inode lies in an inode block, sixteen to a block, and every block has its bit in a bitmap block. */
  lemma BlocksInPlace(fssize: nat, i: nat, j: nat, b: nat)
    requires i < NINODES && j < NINODES && b < fssize
    ensures var sb := Layout(fssize);
      && sb.inodestart <= IBlock(sb, i) < sb.bmapstart <= BBlock(sb, b) < sb.nmeta
      && (IBlock(sb, i) == IBlock(sb, j) <==> i / 16 == j / 16)
  {
    LayoutFits(fssize);
  }

  type Entry = e: seq<Byte> | |e| == DIRSIZ witness seq(DIRSIZ, _ => 0)

  /** A directory entry: the inode number in two bytes, and the name padded with zeroes. */
  function Dirent(inum: nat, name: Entry): (b: seq<Byte>)
    ensures |b| == 16
  {
    [inum % 256, inum / 256 % 256] + name
  }

  function Dots(n: nat): (e: Entry)
    requires n <= DIRSIZ
  {
    seq(DIRSIZ, i => if i < n then 46 else 0)
  }

  /** The entries of the root directory once k files are in. */
  function RootBytes(names: seq<Entry>, k: nat): (b: seq<Byte>)
    requires k <= |names|
    ensures |b| == 16 * (k + 2)
  {
    if k == 0 then Dirent(ROOT, Dots(1)) + Dirent(ROOT, Dots(2))
    else RootBytes(names, k - 1) + Dirent(k + 1, names[k - 1])
  }

  /** What the kernel reads back from entry e of the root: a little-endian inode number and a name.  The first two entries,
      "." and "..", name the root; every other names the inode with its own number, under the name of its file. */
  lemma {:induction false} RootEntry(names: seq<Entry>, k: nat, e: nat)
    requires k <= |names| && k + 2 <= 65536 && e < k + 2
    ensures var b := RootBytes(names, k)[16 * e..16 * e + 16];
      && (var b0: int, b1: int := b[0], b[1]; b0 + 256 * b1 == if e < 2 then 1 else e)
      && (e >= 2 ==> b[2..] == names[e - 2])
      && (e < 2 ==> forall j :: 2 <= j < 16 ==> b[j] == if j < e + 3 then 46 else 0)
  {
    var r := RootBytes(names, k);
    if k > 0 && e < k + 1 {
      RootEntry(names, k - 1, e);
      assert r[16 * e..16 * e + 16] == RootBytes(names, k - 1)[16 * e..16 * e + 16];
    } else if k > 0 {
      assert r[16 * e..16 * e + 16] == Dirent(k + 1, names[k - 1]);
    } else {
      TwoDots(names, e);
    }
  }

  lemma TwoDots(names: seq<Entry>, e: nat)
    requires e < 2
    ensures RootBytes(names, 0)[16 * e..16 * e + 16] == Dirent(ROOT, Dots(e + 1))
  {
    hide Dirent, Dots;
    var a, b := Dirent(ROOT, Dots(1)), Dirent(ROOT, Dots(2));
    assert RootBytes(names, 0) == a + b;
    if e == 0 {
      assert (a + b)[0..16] == a;
    } else {
      assert (a + b)[16..32] == b;
    }
  }

  /** The contents of all files. */
  ghost function All(fs: Fs): (c: seq<seq<Byte>>)
    requires Sized(fs)
  {
    seq(|fs.inodes|, i requires 0 <= i < |fs.inodes| => Contents(fs, i))
  }

  ghost predicate Sized(fs: Fs) {
    forall i :: 0 <= i < |fs.inodes| ==> fs.inodes[i].size <= MAXBYTES
  }

  /** What the image holds once k files are in. */
  function Expected(names: seq<Entry>, files: seq<seq<Byte>>, k: nat): (c: seq<seq<Byte>>)
    requires k <= |names| == |files| && k + 2 <= NINODES
    ensures |c| == NINODES
  {
    [[], RootBytes(names, k)] + files[..k] + seq(NINODES - k - 2, _ => [])
  }

  /** Bytes appended to file i. */
  lemma Appended(fs: Fs, fs': Fs, i: nat, xp: seq<Byte>)
    requires Sized(fs) && i < |fs.inodes| && ContentsSpliced(fs, fs', i, fs.inodes[i].size, xp)
    ensures Sized(fs') && All(fs') == All(fs)[i := All(fs)[i] + xp]
  {
    hide Contents;
    var was := Contents(fs, i);
    assert Splice(was, |was|, xp) == was + xp;
    assert Sized(fs');
  }

  lemma ValidSized(img: Image)
    requires img.Valid()
    ensures Sized(img.View())
  {
    forall i | 0 <= i < |img.inodes| ensures img.inodes[i].size <= MAXBYTES {
      assert Tight(img.View(), i);
    }
  }

  method Append(img: Image, i: nat, xp: seq<Byte>)
    requires img.Valid() && Sized(img.View()) && i < |img.inodes| && img.inodes[i].size + |xp| <= MAXBYTES
    requires img.freeblock + Touched(img.inodes[i].size, |xp|) + 1 <= img.sb.size
    modifies img
    ensures img.Valid() && Sized(img.View()) && All(img.View()) == old(All(img.View()))[i := old(All(img.View()))[i] + xp]
    ensures img.freeblock <= old(img.freeblock) + old(Touched(img.inodes[i].size, |xp|)) + 1 && |img.inodes| == old(|img.inodes|)
    ensures forall j :: 0 <= j < |img.inodes| && j != i ==> img.inodes[j] == old(img.inodes)[j]
  {
    hide All, Sized, Touched, ContentsSpliced;
    ghost var fs := img.View();
    img.Iappend(i, xp);
    Appended(fs, img.View(), i, xp);
  }

  lemma SizeOf(fs: Fs, i: nat)
    requires Sized(fs) && i < |fs.inodes|
    ensures |All(fs)| == |fs.inodes| && |All(fs)[i]| == fs.inodes[i].size
  {
  }

  /** The blocks that n bytes take. */
  function Chunks(n: nat): (c: nat) {
    (n + 1023) / 1024
  }

  /** Room enough for the first k files: two blocks for every call of iappend. */
  function Need(files: seq<seq<Byte>>, k: nat): (n: nat)
    requires k <= |files|
  {
    if k == 0 then 4 else Need(files, k - 1) + 2 + 2 * Chunks(|files[k - 1]|)
  }

  lemma {:induction false} NeedGrows(files: seq<seq<Byte>>, k: nat, m: nat)
    requires k <= m <= |files|
    ensures Need(files, k) <= Need(files, m)
    decreases m
  {
    if k < m {
      NeedGrows(files, k, m - 1);
    }
  }

  /** An entry never straddles two blocks, and a chunk starts a block. */
  lemma OneBlock(off: nat, n: nat)
    requires (off % 16 == 0 && n == 16) || (off % 1024 == 0 && n <= 1024)
    ensures Touched(off, n) <= 1
  {
  }

  lemma ChunkMore(m: nat, n: nat)
    requires m % 1024 == 0 && 1 <= n <= 1024
    ensures Chunks(m + n) == Chunks(m) + 1 && (n == 1024 ==> (m + n) % 1024 == 0)
  {
  }

  /** The loop that copies a file: f goes to inode i, in pieces of a block. */
  method CopyFile(img: Image, i: nat, f: seq<Byte>)
    requires img.Valid() && Sized(img.View()) && i < |img.inodes| && img.inodes[i].size == 0 && |f| <= MAXBYTES
    requires img.freeblock + 2 * Chunks(|f|) <= img.sb.size
    modifies img
    ensures img.Valid() && Sized(img.View()) && |img.inodes| == old(|img.inodes|)
    ensures i < |old(All(img.View()))| && All(img.View()) == old(All(img.View()))[i := f]
    ensures img.freeblock <= old(img.freeblock) + 2 * Chunks(|f|)
    ensures forall j :: 0 <= j < |img.inodes| && j != i ==> img.inodes[j] == old(img.inodes)[j]
  {
    hide All, Sized, Touched, Chunks;
    ghost var all := All(img.View());
    SizeOf(img.View(), i);
    var m := 0;
    assert all[i] == f[..0];
    while m < |f|
      invariant 0 <= m <= |f| && (m % 1024 == 0 || m == |f|) && img.Valid() && Sized(img.View())
      invariant |img.inodes| == old(|img.inodes|) && img.inodes[i].size == m && All(img.View()) == all[i := f[..m]]
      invariant img.freeblock <= old(img.freeblock) + 2 * Chunks(m)
      invariant forall j :: 0 <= j < |img.inodes| && j != i ==> img.inodes[j] == old(img.inodes)[j]
    {
      var n := CopyChunk(img, i, f, m, all);
      m := m + n;
    }
    assert f[..m] == f;
  }

  /** One round of that loop. */
  method CopyChunk(img: Image, i: nat, f: seq<Byte>, m: nat, ghost all: seq<seq<Byte>>) returns (n: nat)
    requires img.Valid() && Sized(img.View()) && i < |img.inodes| == |all| && m < |f| <= MAXBYTES && m % 1024 == 0
    requires img.inodes[i].size == m && All(img.View()) == all[i := f[..m]]
    requires img.freeblock + 2 * Chunks(|f|) <= img.sb.size + 2 * Chunks(m)
    modifies img
    ensures 0 < n && m + n <= |f| && (m + n == |f| || (m + n) % 1024 == 0)
    ensures img.Valid() && Sized(img.View()) && |img.inodes| == old(|img.inodes|)
    ensures img.inodes[i].size == m + n && All(img.View()) == all[i := f[..m + n]]
    ensures img.freeblock + 2 * Chunks(m) <= old(img.freeblock) + 2 * Chunks(m + n)
    ensures forall j :: 0 <= j < |img.inodes| && j != i ==> img.inodes[j] == old(img.inodes)[j]
  {
    hide All, Sized, Touched, Chunks;
    n := if |f| - m > 1024 then 1024 else |f| - m;
    OneBlock(m, n);
    ChunkMore(m, n);
    ChunksGrow(m + n, |f|);
    Append(img, i, f[m..m + n]);
    assert f[..m] + f[m..m + n] == f[..m + n];
    SizeOf(img.View(), i);
  }

  lemma ChunksGrow(a: nat, b: nat)
    requires a <= b
    ensures Chunks(a) <= Chunks(b) && Chunks(0) == 0
  {
  }

  /** One round of the loop over the arguments: ialloc, the entry in the root, and the contents. */
  method AddFile(img: Image, names: seq<Entry>, files: seq<seq<Byte>>, k: nat)
    requires k < |names| == |files| && |files| + 2 <= NINODES && |files[k]| <= MAXBYTES
    requires img.Valid() && Sized(img.View()) && |img.inodes| == NINODES && All(img.View()) == Expected(names, files, k)
    requires img.freeblock + 2 + 2 * Chunks(|files[k]|) <= img.sb.size
    modifies img
    ensures img.Valid() && Sized(img.View()) && |img.inodes| == NINODES && All(img.View()) == Expected(names, files, k + 1)
    ensures img.freeblock <= old(img.freeblock) + 2 + 2 * Chunks(|files[k]|)
    ensures forall j :: 0 <= j < NINODES && j != ROOT && j != k + 2 ==> img.inodes[j] == old(img.inodes)[j]
  {
    hide All, Sized, Touched, Chunks;
    SizeOf(img.View(), ROOT);
    SizeOf(img.View(), k + 2);
    ghost var all := All(img.View());
    OneBlock(img.inodes[ROOT].size, 16);
    Append(img, ROOT, Dirent(k + 2, names[k]));
    SizeOf(img.View(), k + 2);
    CopyFile(img, k + 2, files[k]);
    NextExpected(names, files, k);
  }

  lemma NextExpected(names: seq<Entry>, files: seq<seq<Byte>>, k: nat)
    requires k < |names| == |files| && |files| + 2 <= NINODES
    ensures var all := Expected(names, files, k);
      && |all| == NINODES && all[k + 2] == []
      && all[ROOT := all[ROOT] + Dirent(k + 2, names[k])][k + 2 := files[k]] == Expected(names, files, k + 1)
  {
    hide RootBytes;
    var all := Expected(names, files, k);
    RootNext(names, k);
    assert all[ROOT] == RootBytes(names, k);
  }

  lemma RootNext(names: seq<Entry>, k: nat)
    requires k < |names|
    ensures RootBytes(names, k + 1) == RootBytes(names, k) + Dirent(k + 2, names[k])
  {
  }

  lemma EmptyImage(img: Image)
    requires img.Valid() && Sized(img.View()) && |img.inodes| == NINODES && forall i :: 0 <= i < NINODES ==> img.inodes[i].size == 0
    ensures All(img.View()) == seq(NINODES, _ => [])
  {
    hide Contents;
    assert forall i :: 0 <= i < NINODES ==> |Contents(img.View(), i)| == 0;
  }

  /** The root directory with its two dots. */
  method Root(fssize: nat) returns (img: Image)
    requires Layout(fssize).nmeta + 4 <= fssize <= UINT_MAX
    ensures fresh(img) && img.sb == Layout(fssize) && img.Valid() && Sized(img.View()) && |img.inodes| == NINODES
    ensures All(img.View()) == Expected([], [], 0) && img.freeblock <= img.sb.nmeta + 4
    ensures forall j :: 0 <= j < NINODES && j != ROOT ==> img.inodes[j] == NoInode()
  {
    hide All, Sized, Touched;
    img := new Image(Layout(fssize), NINODES);
    ValidSized(img);
    EmptyImage(img);
    OneBlock(0, 16);
    OneBlock(16, 16);
    Append(img, ROOT, Dirent(ROOT, Dots(1)));
    SizeOf(img.View(), ROOT);
    Append(img, ROOT, Dirent(ROOT, Dots(2)));
    FirstExpected();
  }

  lemma FirstExpected()
    ensures var none: seq<seq<Byte>> := seq(NINODES, _ => []);
      none[ROOT := [] + Dirent(ROOT, Dots(1))][ROOT := [] + Dirent(ROOT, Dots(1)) + Dirent(ROOT, Dots(2))] == Expected([], [], 0)
  {
    hide Dirent;
    var d := Dirent(ROOT, Dots(1));
    assert [] + d == d && RootBytes([], 0) == d + Dirent(ROOT, Dots(2));
  }

  /** The loop of main over its arguments. */
  method AddFiles(img: Image, names: seq<Entry>, files: seq<seq<Byte>>)
    requires |names| == |files| && |files| + 2 <= NINODES && forall k :: 0 <= k < |files| ==> |files[k]| <= MAXBYTES
    requires img.Valid() && Sized(img.View()) && |img.inodes| == NINODES && All(img.View()) == Expected(names, files, 0)
    requires img.freeblock <= img.sb.nmeta + Need(files, 0) && img.sb.nmeta + Need(files, |files|) <= img.sb.size
    requires forall j :: 0 <= j < NINODES && j != ROOT ==> img.inodes[j] == NoInode()
    modifies img
    ensures img.Valid() && Sized(img.View()) && |img.inodes| == NINODES && All(img.View()) == Expected(names, files, |files|)
    ensures img.freeblock <= img.sb.nmeta + Need(files, |files|)
    ensures forall j :: 0 <= j < NINODES && !(1 <= j < |files| + 2) ==> img.inodes[j] == NoInode()
  {
    hide All, Sized, Expected, Need;
    var k := 0;
    while k < |files|
      invariant 0 <= k <= |files| && img.Valid() && Sized(img.View()) && |img.inodes| == NINODES
      invariant All(img.View()) == Expected(names, files, k) && img.freeblock <= img.sb.nmeta + Need(files, k)
      invariant forall j :: 0 <= j < NINODES && !(1 <= j < k + 2) ==> img.inodes[j] == NoInode()
    {
      NeedGrows(files, k + 1, |files|);
      NeedNext(files, k);
      AddFile(img, names, files, k);
      k := k + 1;
    }
  }

  /** main: the files are in the image with their contents and their names in the root, and the image is a good first
      state exactly if the root directory does not fill its last block. */
  method Build(fssize: nat, names: seq<Entry>, files: seq<seq<Byte>>) returns (img: Image)
    requires |names| == |files| && |files| + 2 <= NINODES && forall k :: 0 <= k < |files| ==> |files[k]| <= MAXBYTES
    requires Layout(fssize).nmeta + Need(files, |files|) <= fssize <= UINT_MAX
    ensures fresh(img) && img.sb == Layout(fssize) && |img.inodes| == NINODES && img.freeblock <= img.sb.nmeta + Need(files, |files|)
    ensures Good(img.sb, img.View()) <==> (|files| + 2) % 64 != 0
    ensures forall j :: 0 <= j < NINODES && !(1 <= j < |files| + 2) ==> img.inodes[j] == NoInode()
    ensures var n := 16 * (|files| + 2);
      && img.inodes[ROOT].size == RoundUp(n) && Sized(WithSize(img.View(), ROOT, n))
      && All(WithSize(img.View(), ROOT, n)) == Expected(names, files, |files|)
  {
    hide All, Sized, Expected, Need, RoundUp;
    NeedGrows(files, 0, |files|);
    NeedNone(files);
    img := Root(fssize);
    SameStart(names, files);
    AddFiles(img, names, files);
    ghost var fs := img.View();
    SizeOf(fs, ROOT);
    RootSize(names, files);
    img.FixRoot(ROOT);
    assert WithSize(img.View(), ROOT, fs.inodes[ROOT].size) == fs;
  }

  lemma NeedNone(files: seq<seq<Byte>>)
    ensures Need(files, 0) == 4
  {
  }

  lemma NeedNext(files: seq<seq<Byte>>, k: nat)
    requires k < |files|
    ensures Need(files, k + 1) == Need(files, k) + 2 + 2 * Chunks(|files[k]|)
  {
  }

  lemma SameStart(names: seq<Entry>, files: seq<seq<Byte>>)
    requires |names| == |files|
    ensures Expected([], [], 0) == Expected(names, files, 0)
  {
    assert files[..0] == [];
  }

  lemma RootSize(names: seq<Entry>, files: seq<seq<Byte>>)
    requires |names| == |files| && |files| + 2 <= NINODES
    ensures |Expected(names, files, |files|)[ROOT]| == 16 * (|files| + 2)
    ensures 16 * (|files| + 2) % 1024 != 0 <==> (|files| + 2) % 64 != 0
  {
    hide RootBytes;
    assert Expected(names, files, |files|)[ROOT] == RootBytes(names, |files|);
  }

  /** 62 files fill the first block of the root directory: mkfs then gives it a second one that is not there. */
  method FullRoot(fssize: nat, names: seq<Entry>) returns (img: Image)
    requires 2000 <= fssize <= UINT_MAX && |names| == 62
    ensures fresh(img) && |img.inodes| == NINODES && !Good(img.sb, img.View()) && img.inodes[ROOT].size == 2048
  {
    hide Good, All, Sized, Expected;
    var files: seq<seq<Byte>> := seq(62, _ => []);
    EmptyNeed(files, 62);
    img := Build(fssize, names, files);
  }

  lemma {:induction false} EmptyNeed(files: seq<seq<Byte>>, k: nat)
    requires k <= |files| && forall j :: 0 <= j < |files| ==> files[j] == []
    ensures Need(files, k) == 4 + 2 * k
  {
    if k > 0 {
      EmptyNeed(files, k - 1);
    }
  }

  /** The kernel starts from what mkfs made: every operation of FileSystem then applies, from this state on. */
  method Boot(fssize: nat, names: seq<Entry>, files: seq<seq<Byte>>) returns (f: FileSystem)
    requires |names| == |files| && |files| + 2 <= NINODES && forall k :: 0 <= k < |files| ==> |files[k]| <= MAXBYTES
    requires Layout(fssize).nmeta + Need(files, |files|) <= fssize <= UINT_MAX && (|files| + 2) % 64 != 0
    requires Layout(fssize).nmeta + Need(files, |files|) < BPB
    ensures fresh(f) && f.sb == Layout(fssize) && Good(f.sb, f.View()) && f.FreeEmpty() && |f.inodes| == NINODES
    ensures Loaded(Store(f.View(), f.typ), names, files)
  {
    hide Good, RoundUp, Need;
    var img := Build(fssize, names, files);
    var ok, bits := img.Bitmap();
    var types := seq(NINODES, i => if i == ROOT then T_DIR else if 2 <= i < |files| + 2 then T_FILE else 0);
    f := new FileSystem(img.sb, Fs(bits, img.data, img.inodes), types);
    FilesKept(f.View(), names, files);
    RootKept(f.View(), names, files);
  }

  /** The inodes and blocks, and the types of the inodes. */
  datatype Store = Store(fs: Fs, typ: seq<nat>)

  /** The root holds its entries, every file its bytes, and exactly these inodes have a type. */
  ghost predicate Loaded(a: Store, names: seq<Entry>, files: seq<seq<Byte>>) {
    && |names| == |files| && |files| + 2 <= NINODES == |a.fs.inodes| == |a.typ|
    && (forall i :: 0 <= i < NINODES ==> a.typ[i] == if i == ROOT then T_DIR else if 2 <= i < |files| + 2 then T_FILE else 0)
    && (forall k :: 0 <= k < |files| ==>
      a.fs.inodes[k + 2].size == |files[k]| <= MAXBYTES && Contents(a.fs, k + 2) == files[k])
    && 16 * (|files| + 2) <= a.fs.inodes[ROOT].size <= MAXBYTES
    && Contents(a.fs, ROOT)[..16 * (|files| + 2)] == RootBytes(names, |files|)
  }

  lemma RootKept(fs: Fs, names: seq<Entry>, files: seq<seq<Byte>>)
    requires |names| == |files| && |files| + 2 <= NINODES == |fs.inodes| && fs.inodes[ROOT].size == RoundUp(16 * (|files| + 2))
    requires var n := 16 * (|files| + 2);
      Sized(WithSize(fs, ROOT, n)) && All(WithSize(fs, ROOT, n)) == Expected(names, files, |files|)
    ensures 16 * (|files| + 2) <= fs.inodes[ROOT].size <= MAXBYTES
    ensures Contents(fs, ROOT)[..16 * (|files| + 2)] == RootBytes(names, |files|)
  {
    hide RootBytes, Contents;
    var n := 16 * (|files| + 2);
    var was := WithSize(fs, ROOT, n);
    assert All(was)[ROOT] == RootBytes(names, |files|);
    Shorter(fs, ROOT, n);
  }

  /** A file that is cut short keeps its first bytes. */
  lemma Shorter(fs: Fs, i: nat, n: nat)
    requires i < |fs.inodes| && n <= fs.inodes[i].size <= MAXBYTES
    ensures Contents(fs, i)[..n] == Contents(WithSize(fs, i, n), i)
  {
    SizeOnly(fs, i, n);
    hide Rows;
    var a, b := Contents(fs, i)[..n], Contents(WithSize(fs, i, n), i);
    forall p | 0 <= p < n ensures a[p] == b[p] {
      assert FileBlock(fs, i, BlockNo(p)) == FileBlock(WithSize(fs, i, n), i, BlockNo(p));
    }
  }

  lemma FilesKept(fs: Fs, names: seq<Entry>, files: seq<seq<Byte>>)
    requires |names| == |files| && |files| + 2 <= NINODES == |fs.inodes|
    requires var n := 16 * (|files| + 2);
      Sized(WithSize(fs, ROOT, n)) && All(WithSize(fs, ROOT, n)) == Expected(names, files, |files|)
    ensures forall k :: 0 <= k < |files| ==> fs.inodes[k + 2].size == |files[k]| <= MAXBYTES && Contents(fs, k + 2) == files[k]
  {
    var was := WithSize(fs, ROOT, 16 * (|files| + 2));
    hide RootBytes;
    forall k | 0 <= k < |files| ensures fs.inodes[k + 2].size == |files[k]| <= MAXBYTES && Contents(fs, k + 2) == files[k] {
      assert All(was)[k + 2] == files[k];
      SizeHere(fs, was, k + 2);
    }
  }

  lemma SizeHere(fs: Fs, was: Fs, i: nat)
    requires was.data == fs.data && i < |fs.inodes| == |was.inodes| && fs.inodes[i] == was.inodes[i] && fs.inodes[i].size <= MAXBYTES
    ensures Contents(fs, i) == Contents(was, i)
  {
  }

  /** What processes ask of files, one after another. */
  datatype Call =
    | Make(t: nat)
    | Write(i: nat, off: nat, src: seq<Byte>)
    | Read(i: nat, off: nat, n: nat)
    | Trunc(i: nat)
    | Remove(i: nat)

  /** A file that is there. */
  predicate Open(typ: seq<nat>, i: nat) {
    i < |typ| && typ[i] != 0
  }

  /** What a call answers and does to the files. */
  ghost predicate Served(a: Store, c: Call, out: seq<Byte>, b: Store) {
    match c
    case Make(t) =>
      && out == [] && b.fs == a.fs
      && if t == 0 || NoneFree(a.typ, |a.typ|) then b.typ == a.typ else exists r: nat :: FirstFree(a.typ, r, b.typ, t)
    case Write(i, off, src) =>
      && out == [] && b.typ == a.typ
      && if Open(a.typ, i) && off <= UINT_MAX then exists k: nat :: Wrote(a.fs, i, off, src, k, b.fs) else b == a
    case Read(i, off, n) =>
      && b == a && out == (if Open(a.typ, i) && off <= UINT_MAX && n <= UINT_MAX then Slice(a.fs, i, off, n) else [])
    case Trunc(i) => out == [] && b.typ == a.typ && if Open(a.typ, i) then Emptied1(a.fs, i, b.fs) else b == a
    case Remove(i) => out == [] && if Open(a.typ, i) then b.typ == a.typ[i := 0] && Emptied1(a.fs, i, b.fs) else b == a
  }

  predicate NoneFree(typ: seq<nat>, n: nat) {
    forall i :: 1 <= i < n && i < |typ| ==> typ[i] != 0
  }

  predicate FirstFree(typ: seq<nat>, r: nat, typ': seq<nat>, t: nat) {
    1 <= r < |typ| && typ[r] == 0 && NoneFree(typ, r) && typ' == typ[r := t]
  }

  /** The first k bytes of src, as many as there is room for, are spliced into the file. */
  ghost predicate Wrote(fs: Fs, i: nat, off: nat, src: seq<Byte>, k: nat, fs': Fs) {
    && k <= |src| && Furthest(fs, i, off, |src|, k)
    && if k == 0 then SameContents(fs, fs') else ContentsSpliced(fs, fs', i, off, src[..k])
  }

  ghost function Slice(fs: Fs, i: nat, off: nat, n: nat): (out: seq<Byte>) {
    if i >= |fs.inodes| || fs.inodes[i].size > MAXBYTES || off > fs.inodes[i].size || off + n > UINT_MAX then []
    else Clip(Contents(fs, i), off, n)
  }

  ghost predicate Emptied1(fs: Fs, i: nat, fs': Fs) {
    i < |fs.inodes| && fs'.inodes == fs.inodes[i := NoInode()] && OthersKept(fs, fs', i)
  }

  /** One call; those on inodes that are not there do nothing. */
  method Serve(f: FileSystem, c: Call) returns (out: seq<Byte>)
    requires Good(f.sb, f.View()) && f.FreeEmpty()
    modifies f
    ensures Good(f.sb, f.View()) && f.FreeEmpty() && Served(old(Store(f.View(), f.typ)), c, out, Store(f.View(), f.typ))
  {
    hide Good, OthersSame, ContentsSpliced, SameContents, SmallOps, OthersKept, Rows, Wiped, Furthest, Lacking, Free, Clip, Contents;
    out := [];
    ghost var a := Store(f.View(), f.typ);
    match c
    case Make(t) =>
      if t != 0 {
        var i := f.Ialloc(t);
        if i != 0 {
          assert forall j :: 1 <= j < i ==> f.typ[j] == a.typ[j];
          assert FirstFree(a.typ, i, f.typ, t);
          assert !NoneFree(a.typ, |a.typ|);
        }
      }
    case Write(i, off, src) =>
      if Open(f.typ, i) && off <= UINT_MAX {
        var ret, newoff := f.Filewrite(i, off, src);
        OthersFree(a.fs, f.View(), i);
        assert Wrote(a.fs, i, off, src, newoff - off, f.View());
      }
    case Read(i, off, n) =>
      if Open(f.typ, i) && off <= UINT_MAX && n <= UINT_MAX {
        out := f.Readi(i, off, n);
      }
    case Trunc(i) =>
      if Open(f.typ, i) {
        ghost var bms := f.Itrunc(i);
      }
    case Remove(i) =>
      if Open(f.typ, i) {
        f.Ifree(i);
      }
  }

  /** What was written can be read back. */
  lemma ReadsBack(a: Store, b: Store, c: Store, i: nat, off: nat, src: seq<Byte>, out: seq<Byte>)
    requires Served(a, Write(i, off, src), [], b) && Served(b, Read(i, off, |src|), out, c) && Open(a.typ, i) && i < |a.fs.inodes|
    requires off <= a.fs.inodes[i].size <= MAXBYTES && off + |src| <= MAXBYTES && Lacking(a.fs, i, off, |src|) <= |Free(a.fs.used)|
    ensures out == src
  {
    hide Lacking, Free, Contents, Furthest;
    var k: nat :| Wrote(a.fs, i, off, src, k, b.fs);
    Exactly(a.fs, i, off, |src|, k);
    assert src[..k] == src;
    if src != [] {
      assert |Contents(b.fs, i)| == b.fs.inodes[i].size;
      assert Splice(Contents(a.fs, i), off, src)[off..off + |src|] == src;
    }
  }

  /** From the image that mkfs makes, every sequence of calls does to the files exactly what the calls say, and keeps the
      ownership of blocks exact, every file without holes, and free inodes without blocks; so none of them reaches a panic
      of balloc, bfree or bmap. */
  method Session(fssize: nat, names: seq<Entry>, files: seq<seq<Byte>>, calls: seq<Call>)
      returns (f: FileSystem, outs: seq<seq<Byte>>, ghost ss: seq<Store>)
    requires |names| == |files| && |files| + 2 <= NINODES && forall k :: 0 <= k < |files| ==> |files[k]| <= MAXBYTES
    requires Layout(fssize).nmeta + Need(files, |files|) <= fssize <= UINT_MAX && (|files| + 2) % 64 != 0
    requires Layout(fssize).nmeta + Need(files, |files|) < BPB
    ensures fresh(f) && Good(f.sb, f.View()) && f.FreeEmpty()
    ensures |ss| == |calls| + 1 == |outs| + 1 && Loaded(ss[0], names, files) && ss[|calls|] == Store(f.View(), f.typ)
    ensures forall k :: 0 <= k < |calls| ==> Served(ss[k], calls[k], outs[k], ss[k + 1])
  {
    hide Good, Need, Layout, Loaded, Served;
    f := Boot(fssize, names, files);
    outs, ss := [], [Store(f.View(), f.typ)];
    var k := 0;
    while k < |calls|
      invariant 0 <= k <= |calls| && fresh(f) && Good(f.sb, f.View()) && f.FreeEmpty()
      invariant |ss| == k + 1 == |outs| + 1 && Loaded(ss[0], names, files) && ss[k] == Store(f.View(), f.typ)
      invariant forall j :: 0 <= j < k ==> Served(ss[j], calls[j], outs[j], ss[j + 1])
    {
      var out := Serve(f, calls[k]);
      outs, ss := outs + [out], ss + [Store(f.View(), f.typ)];
      k := k + 1;
    }
  }
}
