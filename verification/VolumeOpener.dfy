/** The geometry bs_css_open finds by walking a directory volume with getsize. Directory
    entries are met in ascending order. */
module VolumeOpener {
  import opened VolumeTree
  import Bytes

  const DEFAULT_FILE_SIZE := 2 * 1024 * 1024

  /** The bytes of k groups of 64 segments. */
  function Capacity(k: nat, size: int): int {
    64 * k * size
  }

  /** The first group of 64 segments below directory PathOf(v, d). */
  function FirstGroup(layers: nat, d: nat, v: nat): nat
    requires d < layers
  {
    v * Pow64(layers - 1 - d)
  }

  /** Some segment of the group has been written, so its leaf directory is not empty. */
  predicate Written(files: set<Path>, layers: nat, g: nat)
    requires layers > 0
  {
    exists c :: 0 <= c < 64 && PathOf(g, layers - 1) + [c] in files
  }

  /** The file size a leaf directory shows: an empty one shows the default. */
  function ShownSize(files: set<Path>, layers: nat, fileSize: nat, g: nat): nat
    requires layers > 0
  {
    if Written(files, layers, g) then fileSize else DEFAULT_FILE_SIZE
  }

  /** The leaf directories of a range of groups all show the same file size. */
  ghost predicate Uniform(files: set<Path>, layers: nat, fileSize: nat, lo: nat, count: nat)
    requires layers > 0
  {
    forall g :: lo <= g < lo + count ==> ShownSize(files, layers, fileSize, g) == ShownSize(files, layers, fileSize, lo)
  }

  lemma UniformJoin(files: set<Path>, layers: nat, fileSize: nat, lo: nat, a: nat, b: nat)
    requires layers > 0 && a > 0 && b > 0
    ensures Uniform(files, layers, fileSize, lo, a + b) <==>
              Uniform(files, layers, fileSize, lo, a) && Uniform(files, layers, fileSize, lo + a, b)
              && ShownSize(files, layers, fileSize, lo + a) == ShownSize(files, layers, fileSize, lo)
  {
    hide ShownSize;
  }

  lemma UniformLess(files: set<Path>, layers: nat, fileSize: nat, lo: nat, a: nat, b: nat)
    requires layers > 0 && a <= b && !Uniform(files, layers, fileSize, lo, a)
    ensures !Uniform(files, layers, fileSize, lo, b)
  {
    hide ShownSize;
  }

  lemma BeforeAll(n: nat, layers: nat, d: nat, v: nat)
    requires d + 1 < layers
    ensures LeavesBefore(n, layers, d, v, 64) == LeavesBelow(n, layers, d, v)
  {
  }

  lemma ClampMonotone(x: int, c: nat, w: nat)
    requires c <= 64
    ensures 0 <= c * w <= 64 * w && Clamp(x, c * w) <= Clamp(x, 64 * w)
  {
    assert 64 * w == c * w + (64 - c) * w;
  }

  lemma BeforeAtMost(n: nat, layers: nat, d: nat, v: nat, c: nat)
    requires d + 1 < layers && c <= 64
    ensures LeavesBefore(n, layers, d, v, c) <= LeavesBelow(n, layers, d, v)
  {
    hide Clamp, Groups;
    var w := Pow64(layers - 2 - d);
    ClampMonotone(Groups(n) - v * Pow64(layers - 1 - d), c, w);
  }

  /** A child that exists follows the groups of the children before it. */
  lemma ChildFirst(n: nat, layers: nat, d: nat, v: nat, c: nat)
    requires n <= Pow64(layers) && d + 1 < layers && v < Pow64(d) && c < 64
    requires PathOf(64 * v + c, d + 1) in Above(0, n, layers)
    ensures FirstGroup(layers, d + 1, 64 * v + c) == FirstGroup(layers, d, v) + LeavesBefore(n, layers, d, v, c)
    ensures LeavesBelow(n, layers, d + 1, 64 * v + c) > 0
  {
    hide Groups, PathOf, Above;
    var h := layers - 1 - d;
    var w := Pow64(h - 1);
    assert Pow64(h) == 64 * w && Pow64(d + 1) == 64 * Pow64(d);
    DirIff(n, layers, 64 * v + c, d + 1);
    ChildStart(v, c, w);
    GroupLess((64 * v + c) * w, n);
  }

  /** The first child is always there. */
  lemma FirstChild(n: nat, layers: nat, d: nat, v: nat)
    requires n <= Pow64(layers) && d + 1 < layers && v < Pow64(d) && PathOf(v, d) in Above(0, n, layers)
    ensures PathOf(64 * v, d + 1) in Above(0, n, layers)
  {
    hide PathOf, Above;
    assert Pow64(layers - d) == 64 * Pow64(layers - d - 1) && Pow64(d + 1) == 64 * Pow64(d);
    DirIff(n, layers, v, d);
    DirIff(n, layers, 64 * v, d + 1);
    ChildStart(v, 0, Pow64(layers - d - 1));
  }

  lemma LayersNext(v: nat)
    ensures Layers(v) == if v == 0 then 0 else 1 + Layers(v / 64)
  {
  }

  lemma ShownPositive(files: set<Path>, layers: nat, fileSize: nat, g: nat)
    requires layers > 0 && fileSize > 0
    ensures ShownSize(files, layers, fileSize, g) > 0
  {
  }

  /** Every leaf directory shows the file size of the volume: it is the default, or each has a
      segment that has been written. */
  ghost predicate AllShow(files: set<Path>, layers: nat, fileSize: nat, n: nat)
    requires layers > 0
  {
    forall g :: 0 <= g < Groups(n) ==> ShownSize(files, layers, fileSize, g) == fileSize
  }

  class Opener {
    const dirs: set<Path>
    const files: set<Path>     // the segment files there are
    const fileSize: nat        // the size each of them has

    constructor (dirs: set<Path>, files: set<Path>, fileSize: nat)
      ensures this.dirs == dirs && this.files == files && this.fileSize == fileSize
    {
      this.dirs, this.files, this.fileSize := dirs, files, fileSize;
    }

    /** The sizes found below a directory: k of the count groups from lo on are counted, all
        exactly if they show one file size. */
    ghost predicate Found(layers: nat, lo: nat, count: nat, size: int, vol: int, k: nat)
      requires layers > 0
    {
      if count == 0 then size == -1 && vol == -1 && k == 0
      else
        && size == ShownSize(files, layers, fileSize, lo) && vol == Capacity(k, size)
        && 0 < k <= count && (k == count <==> Uniform(files, layers, fileSize, lo, count))
    }

    lemma Distribute(a: nat, b: nat, x: int)
      ensures Capacity(a + b, x) == Capacity(a, x) + Capacity(b, x)
    {
    }

    lemma FoundMore(layers: nat, lo: nat, a: nat, size: int, vol: int, k: nat, b: nat, size': int, vol': int, k': nat)
      requires layers > 0 && b > 0
      requires Found(layers, lo, a, size, vol, k) && Found(layers, lo + a, b, size', vol', k')
      ensures a == 0 ==> Found(layers, lo, b, size', vol', k')
      ensures a > 0 && size == size' ==> Found(layers, lo, a + b, size, vol + vol', k + k')
      ensures a > 0 && size != size' ==> !Uniform(files, layers, fileSize, lo, a + b)
    {
      hide Uniform, ShownSize, Capacity;
      if a > 0 {
        UniformJoin(files, layers, fileSize, lo, a, b);
        Distribute(k, k', size);
      }
    }

    /** path is the directory PathOf(v, |path|) of a volume of segs segments. */
    ghost predicate InTree(path: Path, v: nat, segs: nat, layers: nat) {
      && dirs == Above(0, segs, layers) && 0 < segs <= Pow64(layers) && |path| < layers
      && v < Pow64(|path|) && path == PathOf(v, |path|) && path in dirs
      && forall p :: p in files ==> |p| == layers
    }

    /** The file size of the first group below directory PathOf(v, d). */
    function SizeBelow(layers: nat, d: nat, v: nat): nat
      requires d < layers
    {
      ShownSize(files, layers, fileSize, FirstGroup(layers, d, v))
    }

    /** How many groups of 64 segments a directory counts for: a leaf directory is one, and
        another has those of its subdirectories up to the first that shows another file size. */
    function Tour(path: Path, v: nat, layers: nat, c: nat): (r: (nat, bool))
      requires |path| + 1 < layers && c <= 64
      decreases layers - |path|, c
    {
      if c == 0 then (0, false)
      else
        var (k, broken) := Tour(path, v, layers, c - 1);
        if broken || path + [c - 1] !in dirs then (k, broken)
        else if k > 0 && SizeBelow(layers, |path| + 1, 64 * v + c - 1) != SizeBelow(layers, |path|, v) then (k, true)
        else (k + Counted(path + [c - 1], 64 * v + c - 1, layers), false)
    }

    function Counted(path: Path, v: nat, layers: nat): nat
      requires |path| < layers
      decreases layers - |path|, 65
    {
      if |path| + 1 == layers then 1 else Tour(path, v, layers, 64).0
    }

    /** A walk that has ended counts no more. */
    lemma {:induction false} TourEnds(path: Path, v: nat, layers: nat, c: nat, d: nat)
      requires |path| + 1 < layers && c <= d <= 64 && Tour(path, v, layers, c).1
      ensures Tour(path, v, layers, d) == Tour(path, v, layers, c)
    {
      if c < d {
        TourEnds(path, v, layers, c, d - 1);
      }
    }

    /** The walk so far agrees with the count. */
    ghost predicate Touring(path: Path, v: nat, layers: nat, c: nat, broken: bool, size: int, k: nat)
      requires |path| < layers && c <= 64
    {
      && (k == 0 <==> size == -1) && (size != -1 ==> size == SizeBelow(layers, |path|, v))
      && (broken ==> c < 64 && |path| + 1 < layers)
      && (|path| + 1 < layers ==> Tour(path, v, layers, if broken then c + 1 else c) == (k, broken))
    }

    lemma TourDir(path: Path, v: nat, layers: nat, c: nat, size: int, k: nat, size': int, k': nat)
      requires |path| + 1 < layers && c < 64 && Touring(path, v, layers, c, false, size, k) && path + [c] in dirs
      requires k' == Counted(path + [c], 64 * v + c, layers) > 0 && size' == SizeBelow(layers, |path| + 1, 64 * v + c)
      requires size == -1 ==> size' == SizeBelow(layers, |path|, v)
      ensures size == -1 ==> Touring(path, v, layers, c + 1, false, size', k')
      ensures size != -1 && size == size' ==> Touring(path, v, layers, c + 1, false, size, k + k')
      ensures size != -1 && size != size' ==> Touring(path, v, layers, c, true, size, k)
    {
      hide Counted, ShownSize, FirstGroup;
    }

    lemma TourFile(path: Path, v: nat, layers: nat, c: nat, size: int, k: nat)
      requires |path| < layers && c < 64 && Touring(path, v, layers, c, false, size, k) && path + [c] !in dirs
      ensures Touring(path, v, layers, c + 1, false, size, k)
    {
      hide Counted, ShownSize, FirstGroup;
    }

    lemma TourDone(path: Path, v: nat, layers: nat, c: nat, broken: bool, size: int, k: nat)
      requires |path| + 1 < layers && c <= 64 && Touring(path, v, layers, c, broken, size, k) && (c == 64 || broken)
      ensures k == Counted(path, v, layers)
    {
      if broken {
        TourEnds(path, v, layers, c + 1, 64);
      }
    }

    /** n is the largest entry up to c. */
    ghost predicate Entries(path: Path, layers: nat, c: nat, n: nat)
    {
      && c <= 64 && n < 64
      && (n > 0 ==> path + [n] in files || path + [n] in dirs)
      && (forall e :: n < e < c ==> path + [e] !in files)
      && (c > 0 && |path| + 1 < layers ==> path + [0] in dirs)
    }

    /** What the subdirectories with the first done of count groups add up to; if two of them
        disagree the walk has ended. */
    ghost predicate Tally(layers: nat, lo: nat, done: nat, count: nat, broken: bool, size: int, vol: int, k: nat)
      requires layers > 0
    {
      if broken then
        && size == ShownSize(files, layers, fileSize, lo) && vol == Capacity(k, size)
        && 0 < k < count && !Uniform(files, layers, fileSize, lo, count)
      else Found(layers, lo, done, size, vol, k)
    }

    /** What the entries up to c say, of which n is the largest. */
    ghost predicate Walked(path: Path, v: nat, segs: nat, layers: nat, c: nat, n: nat, broken: bool, size: int,
                           vol: int, k: nat)
      requires |path| < layers
    {
      && Entries(path, layers, c, n) && (broken ==> c > 0 && |path| + 1 < layers)
      && Tally(layers, FirstGroup(layers, |path|, v), LeavesBefore(segs, layers, |path|, v, c),
               LeavesBelow(segs, layers, |path|, v), broken, size, vol, k)
    }

    lemma WalkStarts(path: Path, v: nat, segs: nat, layers: nat)
      requires InTree(path, v, segs, layers) && |path| < layers
      ensures Walked(path, v, segs, layers, 0, 0, false, -1, -1, 0)
    {
      LeafTotal(segs, layers, |path|, v);
    }

    /** An entry that is no directory. */
    lemma WalkFile(path: Path, v: nat, segs: nat, layers: nat, c: nat, n: nat, size: int, vol: int, k: nat)
      requires InTree(path, v, segs, layers) && |path| < layers && c < 64
      requires Walked(path, v, segs, layers, c, n, false, size, vol, k) && path + [c] !in dirs
      ensures Walked(path, v, segs, layers, c + 1, if path + [c] in files && c > n then c else n, false, size, vol, k)
    {
      hide Found, LeavesBefore, LeavesBelow, FirstGroup, Above;
      ChildPath(path, v, c);
      ChildDir(segs, layers, |path|, v, c);
      if c == 0 && |path| + 1 < layers {
        FirstChild(segs, layers, |path|, v);
      }
      hide PathOf;
    }

    /** The groups of a child follow those of the children before it. */
    lemma ChildRange(path: Path, v: nat, segs: nat, layers: nat, c: nat)
      requires InTree(path, v, segs, layers) && |path| + 1 < layers && c < 64 && path + [c] in dirs
      ensures var a, b := LeavesBefore(segs, layers, |path|, v, c), LeavesBelow(segs, layers, |path| + 1, 64 * v + c);
              && FirstGroup(layers, |path| + 1, 64 * v + c) == FirstGroup(layers, |path|, v) + a
              && b > 0 && LeavesBefore(segs, layers, |path|, v, c + 1) == a + b <= LeavesBelow(segs, layers, |path|, v)
              && (c == 0 ==> a == 0)
    {
      hide LeavesBefore, LeavesBelow, FirstGroup, Above, PathOf;
      ChildPath(path, v, c);
      ChildDir(segs, layers, |path|, v, c);
      ChildFirst(segs, layers, |path|, v, c);
      LeafTotal(segs, layers, |path|, v);
      BeforeAtMost(segs, layers, |path|, v, c + 1);
    }

    lemma FoundSize(layers: nat, lo: nat, count: nat, size: int, vol: int, k: nat)
      requires layers > 0 && Found(layers, lo, count, size, vol, k)
      ensures size == -1 <==> count == 0
      ensures if count == 0 then vol == -1 && k == 0
              else 0 < k <= count && vol == Capacity(k, size) && vol != -1
                   && size == ShownSize(files, layers, fileSize, lo)
    {
    }

    /** b more groups, of count in all. */
    lemma FoundNext(layers: nat, lo: nat, a: nat, size: int, vol: int, k: nat, b: nat, size': int, vol': int, k': nat,
                    count: nat)
      requires layers > 0 && b > 0 && a + b <= count
      requires Tally(layers, lo, a, count, false, size, vol, k) && Found(layers, lo + a, b, size', vol', k')
      ensures size == -1 ==> a == 0 && vol == -1 && k == 0 && Tally(layers, lo, a + b, count, false, size', vol', k')
      ensures size != -1 ==> a > 0 && vol != -1
      ensures size != -1 && size == size' ==> Tally(layers, lo, a + b, count, false, size, vol + vol', k + k')
      ensures size != -1 && size != size' ==> Tally(layers, lo, a, count, true, size, vol, k)
    {
      hide Found, Uniform, ShownSize, Capacity;
      FoundMore(layers, lo, a, size, vol, k, b, size', vol', k');
      FoundSize(layers, lo, a, size, vol, k);
      if size != -1 && size != size' {
        UniformLess(files, layers, fileSize, lo, a + b, count);
      }
    }

    lemma EntriesNext(path: Path, v: nat, segs: nat, layers: nat, c: nat, n: nat)
      requires InTree(path, v, segs, layers) && |path| + 1 < layers && c < 64
      requires Entries(path, layers, c, n) && path + [c] in dirs
      ensures Entries(path, layers, c + 1, if c > n then c else n)
      ensures c > 0 ==> Entries(path, layers, c, n)
    {
      ChildPath(path, v, 0);
      FirstChild(segs, layers, |path|, v);
      hide Above, PathOf;
    }

    /** A subdirectory and what it shows. */
    lemma WalkDir(path: Path, v: nat, segs: nat, layers: nat, c: nat, n: nat, size: int, vol: int, k: nat,
                  size': int, vol': int, k': nat)
      requires InTree(path, v, segs, layers) && |path| + 1 < layers && c < 64
      requires Walked(path, v, segs, layers, c, n, false, size, vol, k) && path + [c] in dirs
      requires Found(layers, FirstGroup(layers, |path| + 1, 64 * v + c),
                     LeavesBelow(segs, layers, |path| + 1, 64 * v + c),
                     size', vol', k')
      ensures size == -1 ==>
        vol == -1 && Walked(path, v, segs, layers, c + 1, if c > n then c else n, false, size', vol', k')
      ensures size != -1 && size == size' ==>
        vol != -1 && Walked(path, v, segs, layers, c + 1, if c > n then c else n, false, size, vol + vol', k + k')
      ensures size != -1 && size != size' ==> c > 0 && Walked(path, v, segs, layers, c, n, true, size, vol, k)
    {
      hide Found, LeavesBefore, LeavesBelow, FirstGroup, Above, Uniform, PathOf, InTree;
      EntriesNext(path, v, segs, layers, c, n);
      ChildRange(path, v, segs, layers, c);
      FoundNext(layers, FirstGroup(layers, |path|, v), LeavesBefore(segs, layers, |path|, v, c), size, vol, k,
                LeavesBelow(segs, layers, |path| + 1, 64 * v + c), size', vol', k',
                LeavesBelow(segs, layers, |path|, v));
      hide Entries, Tally;
    }

    lemma TourStarts(path: Path, v: nat, layers: nat)
      requires |path| < layers
      ensures Touring(path, v, layers, 0, false, -1, 0)
    {
    }

    /** What a subdirectory shows, and that the first one shows what its parent does. */
    lemma SubFound(path: Path, v: nat, segs: nat, layers: nat, c: nat, size: int, size': int, vol': int, k: nat,
                   n: nat, vol: int)
      requires InTree(path, v, segs, layers) && |path| + 1 < layers && c < 64 && path + [c] in dirs
      requires Walked(path, v, segs, layers, c, n, false, size, vol, k)
      requires Found(layers, FirstGroup(layers, |path| + 1, 64 * v + c),
                     LeavesBelow(segs, layers, |path| + 1, 64 * v + c),
                     size', vol', Counted(path + [c], 64 * v + c, layers))
      ensures size' == SizeBelow(layers, |path| + 1, 64 * v + c) && Counted(path + [c], 64 * v + c, layers) > 0
      ensures size == -1 ==> size' == SizeBelow(layers, |path|, v)
    {
      hide LeavesBefore, LeavesBelow, FirstGroup, Above, PathOf, InTree, Counted, ShownSize, Entries;
      ChildRange(path, v, segs, layers, c);
      if size == -1 {
        FoundSize(layers, FirstGroup(layers, |path|, v), LeavesBefore(segs, layers, |path|, v, c), size, vol, k);
      }
    }

    lemma EndCounts(path: Path, v: nat, segs: nat, layers: nat, c: nat, last: nat, broken: bool, size: int, k: nat)
      requires InTree(path, v, segs, layers) && |path| < layers && c <= 64 && last < 64
      requires Touring(path, v, layers, c, broken, size, k) && (c == 64 || broken)
      requires |path| + 1 < layers ==> path + [last] in dirs
      ensures if path + [last] in dirs then k == Counted(path, v, layers) else Counted(path, v, layers) == 1
    {
      if |path| + 1 < layers {
        TourDone(path, v, layers, c, broken, size, k);
      } else {
        NoChild(segs, layers, path + [last]);
      }
    }

    lemma BelowLayers(path: Path, v: nat, segs: nat, layers: nat, c: nat)
      requires InTree(path, v, segs, layers) && c < 64 && path + [c] in dirs
      ensures |path| + 1 < layers && InTree(path + [c], 64 * v + c, segs, layers)
    {
      ChildPath(path, v, c);
      ChildDir(segs, layers, |path|, v, c);
    }

    lemma TallyEnds(layers: nat, lo: nat, count: nat, broken: bool, size: int, vol: int, k: nat)
      requires layers > 0 && count > 0 && (broken || Tally(layers, lo, count, count, false, size, vol, k))
      requires exists done :: Tally(layers, lo, done, count, broken, size, vol, k)
      ensures Found(layers, lo, count, size, vol, k)
    {
    }

    /** A leaf directory shows what its largest entry says. */
    lemma LeafEnds(path: Path, v: nat, layers: nat, last: nat)
      requires |path| + 1 == layers && path == PathOf(v, |path|) && last < 64
      requires (last > 0 ==> path + [last] in files) && forall e :: last < e < 64 ==> path + [e] !in files
      ensures FirstGroup(layers, |path|, v) == v
      ensures Found(layers, v, 1, ShownSize(files, layers, fileSize, v), 64 * ShownSize(files, layers, fileSize, v), 1)
      ensures path + [last] in files <==> Written(files, layers, v)
    {
      assert Pow64(0) == 1 && v * 1 == v;
      if Written(files, layers, v) {
        var c :| 0 <= c < 64 && PathOf(v, layers - 1) + [c] in files;
      }
    }

    /** At the end of the walk. */
    lemma WalkEnds(path: Path, v: nat, segs: nat, layers: nat, c: nat, last: nat, broken: bool, size: int, vol: int,
                   k: nat)
      requires InTree(path, v, segs, layers) && |path| < layers
      requires Walked(path, v, segs, layers, c, last, broken, size, vol, k) && (c == 64 || broken)
      ensures LeavesBelow(segs, layers, |path|, v) > 0
      ensures if path + [last] in dirs then
                Found(layers, FirstGroup(layers, |path|, v), LeavesBelow(segs, layers, |path|, v), size, vol, k)
              else if path + [last] in files then
                Found(layers, FirstGroup(layers, |path|, v), LeavesBelow(segs, layers, |path|, v), fileSize,
                      64 * fileSize, 1)
              else
                Found(layers, FirstGroup(layers, |path|, v), LeavesBelow(segs, layers, |path|, v), DEFAULT_FILE_SIZE,
                      64 * DEFAULT_FILE_SIZE, 1)
      ensures path + [last] in dirs ==> path + [last] !in files
      ensures |path| + 1 < layers ==> path + [last] in dirs
    {
      LeafTotal(segs, layers, |path|, v);
      if |path| + 1 < layers {
        BeforeAll(segs, layers, |path|, v);
        ChildPath(path, v, 0);
        FirstChild(segs, layers, |path|, v);
        hide LeavesBefore, LeavesBelow, FirstGroup, Above, PathOf, Found;
        assert |path + [last]| < layers;
        TallyEnds(layers, FirstGroup(layers, |path|, v), LeavesBelow(segs, layers, |path|, v), broken, size, vol, k);
      } else {
        NoChild(segs, layers, path + [last]);
        hide LeavesBefore, LeavesBelow, Above, PathOf, Found, Tally;
        LeafEnds(path, v, layers, last);
        hide FirstGroup;
      }
    }

    /** getsize. At the end the largest entry decides: a directory adds nothing to what the
        subdirectories showed, a file makes this one a directory of 64 segments of its size,
        and a directory without entries counts as 64 segments of the default size. A
        subdirectory that shows another file size ends the walk of its directory. */
    method GetSize(path: Path, ghost v: nat, ghost n: nat, ghost layers: nat) returns (size: int, vol: int)
      requires InTree(path, v, n, layers) && |path| < layers
      ensures size == SizeBelow(layers, |path|, v) && vol == Capacity(Counted(path, v, layers), size)
      ensures LeavesBelow(n, layers, |path|, v) > 0
      ensures Found(layers, FirstGroup(layers, |path|, v), LeavesBelow(n, layers, |path|, v), size, vol,
                    Counted(path, v, layers))
      decreases layers - |path|
    {
      hide Found, Walked, LeavesBefore, LeavesBelow, FirstGroup, Above, PathOf, InTree, Touring, Counted, ShownSize;
      size, vol := -1, -1;
      ghost var k := 0;
      var last, c, broken := 0, 0, false;
      WalkStarts(path, v, n, layers);
      TourStarts(path, v, layers);
      while c < 64 && !broken
        invariant 0 <= c <= 64 && 0 <= last < 64 && Walked(path, v, n, layers, c, last, broken, size, vol, k)
        invariant Touring(path, v, layers, c, broken, size, k)
        decreases 64 - c, !broken
      {
        if path + [c] in dirs {
          BelowLayers(path, v, n, layers, c);
          var size', vol' := GetSize(path + [c], 64 * v + c, n, layers);
          ghost var k' := Counted(path + [c], 64 * v + c, layers);
          SubFound(path, v, n, layers, c, size, size', vol', k, last, vol);
          WalkDir(path, v, n, layers, c, last, size, vol, k, size', vol', k');
          TourDir(path, v, layers, c, size, k, size', k');
          if size == -1 {
            size, vol, k := size', vol', k';
          } else if size == size' {
            vol, k := vol + vol', k + k';
          } else {
            broken := true;
          }
        } else {
          WalkFile(path, v, n, layers, c, last, size, vol, k);
          TourFile(path, v, layers, c, size, k);
        }
        if !broken {
          if (path + [c] in dirs || path + [c] in files) && c > last {
            last := c;
          }
          c := c + 1;
        }
      }
      WalkEnds(path, v, n, layers, c, last, broken, size, vol, k);
      EndCounts(path, v, n, layers, c, last, broken, size, k);
      if path + [last] !in files && path + [last] !in dirs {
        size := DEFAULT_FILE_SIZE;
        vol := 64 * size;
      } else if path + [last] in files {
        size := fileSize;
        vol := (if last < 63 then 64 else last + 1) * size;
      }
      FoundSize(layers, FirstGroup(layers, |path|, v), LeavesBelow(n, layers, |path|, v), size, vol,
                Counted(path, v, layers));
    }

    lemma InRoot(n: nat)
      requires n > 0 && dirs == Above(0, n, Layers(n)) && forall p :: p in files ==> |p| == Layers(n)
      ensures Layers(n) > 0 && InTree([], 0, n, Layers(n))
    {
      RootTotal(n);
      assert PathOf(0, 0) == [];
    }

    lemma Quotient(k: nat, size: int)
      ensures size > 0 ==> Capacity(k, size) / size == 64 * k
    {
      if size > 0 {
        Bytes.ModUnique(Capacity(k, size), size, 64 * k, 0);
      }
    }

    lemma RootFound(n: nat, size: int, vol: int, k: nat)
      requires n > 0 && fileSize > 0 && Layers(n) > 0
      requires Found(Layers(n), FirstGroup(Layers(n), 0, 0), LeavesBelow(n, Layers(n), 0, 0), size, vol, k)
      ensures size > 0 && vol / size == 64 * k && 0 < 64 * k <= RoundUp64(n)
      ensures size == ShownSize(files, Layers(n), fileSize, 0)
      ensures 64 * k == RoundUp64(n) <==> Uniform(files, Layers(n), fileSize, 0, Groups(n))
      ensures size == fileSize && 64 * k == RoundUp64(n) <==> AllShow(files, Layers(n), fileSize, n)
    {
      RootTotal(n);
      assert FirstGroup(Layers(n), 0, 0) == 0;
      assert LeavesBelow(n, Layers(n), 0, 0) == Groups(n);
      Quotient(k, size);
      hide ShownSize, LeavesBelow, FirstGroup;
      ShownPositive(files, Layers(n), fileSize, 0);
    }

    /** bs_css_open: the file size, the number of segments and the depth it takes for the
        volume. They are those of the volume as it was created, rounded up to whole leaf
        directories, exactly if every leaf directory shows the file size it was created with,
        because it is the default or a segment has been written there, and the depth survives
        the rounding. */
    method OpenGeometry(ghost n: nat) returns (size: int, max: int, layers: nat)
      requires n > 0 && fileSize > 0 && dirs == Above(0, n, Layers(n))
      requires forall p :: p in files ==> |p| == Layers(n)
      ensures Layers(n) > 0 && size > 0 && 0 < max <= RoundUp64(n) && layers == Layers(max)
      ensures size == ShownSize(files, Layers(n), fileSize, 0) && max == 64 * Counted([], 0, Layers(n))
      ensures max == RoundUp64(n) <==> Uniform(files, Layers(n), fileSize, 0, Groups(n))
      ensures size == fileSize && max == RoundUp64(n) <==> AllShow(files, Layers(n), fileSize, n)
      ensures size == fileSize && max == RoundUp64(n) && layers == Layers(n) <==>
                AllShow(files, Layers(n), fileSize, n) && n <= Pow64(Layers(n)) - 64
    {
      hide Found, FirstGroup, Above, LeavesBelow, RoundUp64, Pow64, Layers, Counted, SizeBelow;
      InRoot(n);
      var vol;
      size, vol := GetSize([], 0, n, Layers(n));
      RootFound(n, size, vol, Counted([], 0, Layers(n)));
      OpenerDepthIff(n);
      max := vol / size;
      var v, count := max, 0;
      while v > 0
        invariant 0 <= v && count + Layers(v) == Layers(max)
      {
        LayersNext(v);
        v := v / 64;
        count := count + 1;
      }
      LayersNext(0);
      layers := count;
    }
  }

  lemma AllShowIff(files: set<Path>, layers: nat, fileSize: nat, n: nat)
    requires layers > 0
    ensures AllShow(files, layers, fileSize, n) <==>
              fileSize == DEFAULT_FILE_SIZE || forall g :: 0 <= g < Groups(n) ==> Written(files, layers, g)
  {
    hide Written;
    if AllShow(files, layers, fileSize, n) && fileSize != DEFAULT_FILE_SIZE {
      forall g | 0 <= g < Groups(n)
        ensures Written(files, layers, g)
      {
        assert ShownSize(files, layers, fileSize, g) == fileSize;
      }
    }
  }
}
