/** The directory tree of a volume: 64 entries a directory, two digits a level. The creating
    and extending programs skip mkdir when a digit is the one of the segment before. */
module VolumeTree {
  import opened Bytes

  type Path = seq<nat>

  function Pow64(k: nat): (r: nat)
    ensures r > 0
  {
    if k == 0 then 1 else 64 * Pow64(k - 1)
  }

  /** The number of base-64 digits of value. */
  function Layers(value: nat): nat {
    if value == 0 then 0 else 1 + Layers(value / 64)
  }

  /** The path of segment j: its last digits in base 64, most significant first. */
  function PathOf(j: nat, layers: nat): (p: Path)
    ensures |p| == layers
  {
    if layers == 0 then [] else PathOf(j / 64, layers - 1) + [j % 64]
  }

  /** j without its last k base-64 digits, as a shift by 6 * k. */
  function Shifted(j: nat, k: nat): nat {
    if k == 0 then j else Shifted(j / 64, k - 1)
  }

  lemma DivDiv(j: nat, p: nat)
    requires p > 0
    ensures j / 64 / p == j / (64 * p)
  {
    var q := j / 64 / p;
    var r := j / 64 % p * 64 + j % 64;
    assert j / 64 == p * q + j / 64 % p;
    assert j == 64 * p * q + r;
    ModUnique(j, 64 * p, q, r);
  }

  lemma {:induction false} ShiftedIsQuotient(j: nat, k: nat)
    ensures Shifted(j, k) == j / Pow64(k)
  {
    if k > 0 {
      ShiftedIsQuotient(j / 64, k - 1);
      DivDiv(j, Pow64(k - 1));
    }
  }

  /** A prefix of a path is the path of the shifted number. */
  lemma {:induction false} PathPrefix(j: nat, layers: nat, d: nat)
    requires d <= layers
    ensures PathOf(j, layers)[..d] == PathOf(Shifted(j, layers - d), d)
    decreases layers - d
  {
    if d < layers {
      PathPrefix(j / 64, layers - 1, d);
      assert PathOf(j, layers)[..d] == PathOf(j / 64, layers - 1)[..d];
    } else {
      assert PathOf(j, layers)[..d] == PathOf(j, layers);
    }
  }

  /** The digit the programs compute at level l. */
  lemma DigitAt(j: nat, layers: nat, l: nat)
    requires l < layers
    ensures PathOf(j, layers)[l] == Shifted(j, layers - l - 1) % 64
  {
    PathPrefix(j, layers, l + 1);
    assert PathOf(j, layers)[l] == PathOf(j, layers)[..l + 1][l];
  }

  lemma {:induction false} ShiftedNext(j: nat, k: nat)
    ensures Shifted(j, k) <= Shifted(j + 1, k) <= Shifted(j, k) + 1
  {
    if k > 0 {
      if (j + 1) / 64 == j / 64 {
      } else {
        assert (j + 1) / 64 == j / 64 + 1;
        ShiftedNext(j / 64, k - 1);
      }
    }
  }

  /** Skipping is sound: if two segments in a row have the same digit at a level, all levels
      above agree too, so the directory is there already. */
  lemma SameDigitSamePrefix(j: nat, layers: nat, l: nat)
    requires l < layers && PathOf(j, layers)[l] == PathOf(j + 1, layers)[l]
    ensures PathOf(j, layers)[..l + 1] == PathOf(j + 1, layers)[..l + 1]
  {
    DigitAt(j, layers, l);
    DigitAt(j + 1, layers, l);
    ShiftedNext(j, layers - l - 1);
    PathPrefix(j, layers, l + 1);
    PathPrefix(j + 1, layers, l + 1);
  }

  // ----- the tree of a volume

  /** The directories above segments lo .. hi - 1. */
  function Above(lo: nat, hi: nat, layers: nat): set<Path> {
    set j, d | lo <= j < hi && 0 <= d < layers :: PathOf(j, layers)[..d]
  }

  function Prefixes(p: Path): set<Path> {
    set d | 0 <= d <= |p| :: p[..d]
  }

  lemma ChildPath(path: Path, v: nat, c: nat)
    requires path == PathOf(v, |path|) && v < Pow64(|path|) && c < 64
    ensures path + [c] == PathOf(64 * v + c, |path| + 1) && 64 * v + c < Pow64(|path| + 1)
  {
    assert (64 * v + c) / 64 == v && (64 * v + c) % 64 == c;
  }

  /** The leaf directories of a volume of n segments. */
  function Groups(n: nat): nat {
    (n + 63) / 64
  }

  function Clamp(x: int, w: nat): nat {
    if x <= 0 then 0 else if x <= w then x else w
  }

  /** How many of the groups of a volume of n segments lie below directory PathOf(v, d). */
  function LeavesBelow(n: nat, layers: nat, d: nat, v: nat): nat
    requires d < layers
  {
    Clamp(Groups(n) - v * Pow64(layers - 1 - d), Pow64(layers - 1 - d))
  }

  /** How many of them lie below its first c children. */
  function LeavesBefore(n: nat, layers: nat, d: nat, v: nat, c: nat): nat
    requires d < layers
  {
    var h := layers - 1 - d;
    if h == 0 then 0 else Clamp(Groups(n) - v * Pow64(h), c * Pow64(h - 1))
  }

  lemma NoChild(n: nat, layers: nat, p: Path)
    requires |p| >= layers
    ensures p !in Above(0, n, layers)
  {
  }

  lemma ClampEmpty(x: int, w: nat)
    ensures x <= 0 ==> Clamp(x, w) == 0
  {
  }

  lemma ChildStart(v: nat, c: nat, w: nat)
    ensures (64 * v + c) * w == v * (64 * w) + c * w
    ensures (64 * v + c) * (64 * w) == 64 * ((64 * v + c) * w)
    ensures (c + 1) * w == c * w + w && c * w >= 0
  {
  }

  lemma ClampStep(x: int, a: nat, w: nat)
    ensures Clamp(x, a + w) == Clamp(x, a) + Clamp(x - a, w)
  {
  }

  lemma GroupLess(x: nat, n: nat)
    ensures 64 * x < n <==> x < Groups(n)
  {
  }

  lemma {:induction false} PathInjective(a: nat, b: nat, d: nat)
    requires PathOf(a, d) == PathOf(b, d) && a < Pow64(d) && b < Pow64(d)
    ensures a == b
  {
    if d > 0 {
      assert PathOf(a, d)[..d - 1] == PathOf(a / 64, d - 1) && PathOf(b, d)[..d - 1] == PathOf(b / 64, d - 1);
      assert PathOf(a, d)[d - 1] == a % 64 && PathOf(b, d)[d - 1] == b % 64;
      PathInjective(a / 64, b / 64, d - 1);
    }
  }

  lemma QuotientTimes(j: nat, w: nat)
    requires w > 0
    ensures j / w * w <= j < j / w * w + w
  {
  }

  lemma QuotientBelow(j: nat, w: nat, p: nat)
    requires w > 0 && j < p * w
    ensures j / w < p
  {
    if p <= j / w {
      QuotientTimes(j, w);
      if p < j / w {
        MulStep(w, p, j / w);
      }
    }
  }

  lemma {:induction false} PowAdd(a: nat, b: nat)
    ensures Pow64(a + b) == Pow64(a) * Pow64(b)
  {
    if a > 0 {
      PowAdd(a - 1, b);
      assert Pow64(a) * Pow64(b) == 64 * (Pow64(a - 1) * Pow64(b));
    }
  }

  /** Which directories there are: PathOf(v, d) is one exactly when some segment below n
      shifts down to v. */
  lemma DirIff(n: nat, layers: nat, v: nat, d: nat)
    requires n <= Pow64(layers) && d < layers && v < Pow64(d)
    ensures PathOf(v, d) in Above(0, n, layers) <==> v * Pow64(layers - d) < n
  {
    var w := Pow64(layers - d);
    if PathOf(v, d) in Above(0, n, layers) {
      var j, e :| 0 <= j < n && 0 <= e < layers && PathOf(v, d) == PathOf(j, layers)[..e];
      PathPrefix(j, layers, d);
      ShiftedIsQuotient(j, layers - d);
      PowAdd(d, layers - d);
      QuotientBelow(j, w, Pow64(d));
      PathInjective(v, Shifted(j, layers - d), d);
      QuotientTimes(j, w);
    }
    if v * w < n {
      var j := v * w;
      ShiftedIsQuotient(j, layers - d);
      ModUnique(j, w, v, 0);
      PathPrefix(j, layers, d);
      assert PathOf(j, layers)[..d] == PathOf(v, d);
    }
  }

  /** The next child, if there is one, adds what lies below it. */
  lemma ChildDir(n: nat, layers: nat, d: nat, v: nat, c: nat)
    requires n <= Pow64(layers) && d < layers && v < Pow64(d) && c < 64
    ensures PathOf(64 * v + c, d + 1) in Above(0, n, layers) ==> d + 1 < layers
    ensures LeavesBefore(n, layers, d, v, c + 1)
         == LeavesBefore(n, layers, d, v, c)
          + if PathOf(64 * v + c, d + 1) in Above(0, n, layers) then LeavesBelow(n, layers, d + 1, 64 * v + c) else 0
  {
    hide Clamp, Groups, PathOf, Above;
    var h := layers - 1 - d;
    if h == 0 {
      NoChild(n, layers, PathOf(64 * v + c, d + 1));
    } else {
      var w := Pow64(h - 1);
      assert Pow64(d + 1) == 64 * Pow64(d) && Pow64(h) == 64 * w;
      DirIff(n, layers, 64 * v + c, d + 1);
      ChildStart(v, c, w);
      GroupLess((64 * v + c) * w, n);
      ClampStep(Groups(n) - v * (64 * w), c * w, w);
      ClampEmpty(Groups(n) - (64 * v + c) * w, w);
    }
  }

  lemma ThreeFactors(v: nat, w: nat)
    ensures v * (64 * w) == 64 * (v * w) && 0 * w == 0
  {
  }

  lemma ClampSome(x: int, w: nat)
    requires x > 0 && w > 0
    ensures Clamp(x, w) >= 1 && Clamp(x, 0) == 0 && (w == 1 ==> Clamp(x, w) == 1)
  {
  }

  lemma LeafTotal(n: nat, layers: nat, d: nat, v: nat)
    requires 0 < n <= Pow64(layers) && d < layers && v < Pow64(d) && PathOf(v, d) in Above(0, n, layers)
    ensures LeavesBefore(n, layers, d, v, 0) == 0 && LeavesBelow(n, layers, d, v) >= 1
    ensures LeavesBelow(n, layers, d, v)
         == if LeavesBefore(n, layers, d, v, 64) == 0 then 1 else LeavesBefore(n, layers, d, v, 64)
  {
    hide Groups, PathOf, Above, Clamp;
    var h := layers - 1 - d;
    var w := Pow64(h);
    DirIff(n, layers, v, d);
    assert Pow64(layers - d) == 64 * w;
    ThreeFactors(v, w);
    GroupLess(v * w, n);
    ClampSome(Groups(n) - v * w, w);
    if h > 0 {
      assert w == 64 * Pow64(h - 1);
    }
  }

  lemma Reorder(fileSize: nat, num: nat)
    ensures fileSize * num * 64 == num * 64 * fileSize
  {
  }

  /** The size getISCSIVolSize reports for n segments, in segments. */
  function RoundUp64(n: nat): nat {
    (n + 63) / 64 * 64
  }

  lemma {:induction false} BelowPow(n: nat)
    ensures n < Pow64(Layers(n))
  {
    if n > 0 {
      BelowPow(n / 64);
    }
  }

  lemma RootTotal(n: nat)
    requires n > 0
    ensures n <= Pow64(Layers(n)) && [] in Above(0, n, Layers(n))
    ensures LeavesBelow(n, Layers(n), 0, 0) * 64 == RoundUp64(n)
  {
    BelowPow(n);
    assert PathOf(0, Layers(n))[..0] == [];
    assert Pow64(Layers(n)) == 64 * Pow64(Layers(n) - 1);
  }

  lemma AboveSplit(lo: nat, mid: nat, hi: nat, layers: nat)
    requires lo <= mid <= hi
    ensures Above(lo, hi, layers) == Above(lo, mid, layers) + Above(mid, hi, layers)
  {
    forall p | p in Above(lo, hi, layers)
      ensures p in Above(lo, mid, layers) || p in Above(mid, hi, layers)
    {
      var j, d :| lo <= j < hi && 0 <= d < layers && p == PathOf(j, layers)[..d];
    }
    forall p | p in Above(lo, mid, layers) || p in Above(mid, hi, layers)
      ensures p in Above(lo, hi, layers)
    {
      if p in Above(lo, mid, layers) {
        var j, d :| lo <= j < mid && 0 <= d < layers && p == PathOf(j, layers)[..d];
      } else {
        var j, d :| mid <= j < hi && 0 <= d < layers && p == PathOf(j, layers)[..d];
      }
    }
  }

  lemma PrefixesAbove(j: nat, layers: nat, l: nat)
    requires l < layers
    ensures forall p :: p in Prefixes(PathOf(j, layers)[..l]) ==> p in Above(j, j + 1, layers)
    ensures PathOf(j, layers)[..l] in Prefixes(PathOf(j, layers)[..l])
  {
    var path := PathOf(j, layers)[..l];
    forall p | p in Prefixes(path)
      ensures p in Above(j, j + 1, layers)
    {
      var d :| 0 <= d <= |path| && p == path[..d];
      assert p == PathOf(j, layers)[..d];
    }
    assert path == path[..l];
  }

  class Volume {
    var dirs: set<Path>    // the directories below the volume, [] the volume itself

    /** css_r_mkdir makes every directory on the path; one that exists is no error. */
    method RMkdir(path: Path)
      modifies this
      ensures dirs == old(dirs) + Prefixes(path)
    {
      ghost var was := dirs;
      var d := 0;
      while d <= |path|
        invariant 0 <= d <= |path| + 1
        invariant dirs == was + set e | 0 <= e < d :: path[..e]
      {
        dirs := dirs + {path[..d]};
        d := d + 1;
      }
      assert Prefixes(path) == set e | 0 <= e < d :: path[..e];
    }

    /** One pass of the loops of createISCSIVol and extendISCSIVol: the directories above
        segment j, level by level, skipping mkdir for a digit that is in the cache. */
    method MakeParents(j: nat, layers: nat, cache: array<int>, ghost first: nat)
      requires cache.Length == layers && first <= j
      requires [] in dirs
      requires j == first ==> forall l :: 0 <= l < layers - 1 ==> cache[l] == -1
      requires j > first ==> forall l :: 0 <= l < layers - 1 ==> cache[l] == PathOf(j - 1, layers)[l]
      requires j > first ==> Above(j - 1, j, layers) <= dirs
      modifies this, cache
      ensures dirs == old(dirs) + Above(j, j + 1, layers)
      ensures forall l :: 0 <= l < layers - 1 ==> cache[l] == PathOf(j, layers)[l]
    {
      ghost var path := PathOf(j, layers);
      var fileName: Path := [];
      var l := 0;
      while l < layers
        invariant 0 <= l <= layers && fileName == path[..l]
        invariant old(dirs) <= dirs && forall d :: 0 <= d <= l && d < layers ==> path[..d] in dirs
        invariant forall p :: p in dirs ==> p in old(dirs) || p in Above(j, j + 1, layers)
        invariant forall k :: 0 <= k < layers - 1 ==> cache[k] == if k < l then path[k] else old(cache[k])
      {
        var dir := Shifted(j, layers - l - 1) % 64;
        DigitAt(j, layers, l);
        assert path[..l + 1] == path[..l] + [path[l]];
        fileName := fileName + [dir];
        if l < layers - 1 {
          if cache[l] != dir {
            PrefixesAbove(j, layers, l + 1);
            RMkdir(fileName);
            cache[l] := dir;
          } else {
            SameDigitSamePrefix(j - 1, layers, l);
            assert PathOf(j - 1, layers)[..l + 1] in Above(j - 1, j, layers);
          }
        }
        l := l + 1;
      }
      assert dirs == old(dirs) + Above(j, j + 1, layers);
    }

    /** The while (value) loop that counts the layers. */
    method CountLayers(value: nat) returns (layers: nat)
      ensures layers == Layers(value)
    {
      layers := 0;
      var v := value;
      while v > 0
        invariant 0 <= v && layers + Layers(v) == Layers(value)
      {
        v := v / 64;
        layers := layers + 1;
      }
    }

    /** The loop of both programs over the segments from lo on. */
    method MakeAll(lo: nat, hi: nat, layers: nat)
      requires [] in dirs && lo <= hi
      modifies this
      ensures dirs == old(dirs) + Above(lo, hi, layers)
    {
      var cache := new int[layers](_ => -1);
      var j := lo;
      while j < hi
        invariant lo <= j <= hi && cache.Length == layers && fresh(cache)
        invariant dirs == old(dirs) + Above(lo, j, layers)
        invariant j == lo ==> forall l :: 0 <= l < layers - 1 ==> cache[l] == -1
        invariant j > lo ==> forall l :: 0 <= l < layers - 1 ==> cache[l] == PathOf(j - 1, layers)[l]
      {
        MakeParents(j, layers, cache, lo);
        AboveSplit(lo, j, j + 1, layers);
        j := j + 1;
      }
    }

    /** createISCSIVol, for n = vol_size / file_size segments: the parent directory of every
        segment is in place, and nothing else is. */
    method Create(n: nat)
      requires n > 0
      modifies this
      ensures dirs == Above(0, n, Layers(n))
      ensures forall j :: 0 <= j < n ==> PathOf(j, Layers(n))[..Layers(n) - 1] in dirs
    {
      dirs := {[]};
      var layers := CountLayers(n);
      MakeAll(0, n, layers);
      assert PathOf(0, layers)[..0] == [] && [] in Above(0, n, layers);
    }

    /** extendISCSIVol to n segments, from the size that the tree of n0 segments shows. */
    method Extend(n0: nat, n: nat)
      requires 0 < n0 && RoundUp64(n0) < n && dirs == Above(0, n0, Layers(n0))
      modifies this
      ensures dirs == Above(0, n0, Layers(n0)) + Above(RoundUp64(n0), n, Layers(n))
    {
      assert PathOf(0, Layers(n0))[..0] == [] && [] in dirs;
      var layers := CountLayers(n);
      MakeAll(RoundUp64(n0), n, layers);
    }

    /** r_getLeafDirNumber for the directory of the segments that shift down to v: it counts
        those of the leaf directories that lie below. */
    method LeafDirNumber(path: Path, ghost v: nat, ghost n: nat, ghost layers: nat) returns (num: nat)
      requires dirs == Above(0, n, layers) && 0 < n <= Pow64(layers) && |path| < layers
      requires v < Pow64(|path|) && path == PathOf(v, |path|) && path in dirs
      ensures num == LeavesBelow(n, layers, |path|, v)
      decreases layers - |path|
    {
      hide LeavesBelow, LeavesBefore, PathOf, Above;
      LeafTotal(n, layers, |path|, v);
      num := 0;
      var c := 0;
      while c < 64
        invariant 0 <= c <= 64
        invariant num == LeavesBefore(n, layers, |path|, v, c)
      {
        var child := path + [c];
        ChildPath(path, v, c);
        ChildDir(n, layers, |path|, v, c);
        if child in dirs {
          var sub := LeafDirNumber(child, 64 * v + c, n, layers);
          num := num + sub;
        }
        c := c + 1;
      }
      if num == 0 {
        num := 1;
      }
    }

    /** getISCSIVolSize: what the directories of a volume of n segments show is the number of
        segments rounded up to a multiple of 64. */
    method VolumeSize(fileSize: nat, ghost n: nat) returns (size: nat)
      requires 0 < n && dirs == Above(0, n, Layers(n))
      ensures size == RoundUp64(n) * fileSize
    {
      RootTotal(n);
      hide Layers, Above, LeavesBelow, RoundUp64;
      var num := LeafDirNumber([], 0, n, Layers(n));
      size := fileSize * num * 64;
      Reorder(fileSize, num);
    }
  }

  // ----- extending is creating, if the number of layers stays

  /** Segments of one group of 64 have the same parents. */
  lemma SameGroup(j: nat, k: nat, layers: nat, d: nat)
    requires d < layers && j / 64 == k / 64
    ensures PathOf(j, layers)[..d] == PathOf(k, layers)[..d]
  {
    assert PathOf(j, layers)[..d] == PathOf(j / 64, layers - 1)[..d];
    assert PathOf(k, layers)[..d] == PathOf(k / 64, layers - 1)[..d];
  }

  lemma GroupOfLast(n: nat, j: nat)
    requires 0 < n <= j < RoundUp64(n)
    ensures j / 64 == (n - 1) / 64
  {
  }

  lemma AddedIsThere(n: nat, layers: nat, p: Path)
    requires n > 0 && p in Above(n, RoundUp64(n), layers)
    ensures p in Above(0, n, layers)
  {
    hide RoundUp64, PathOf;
    var j, d :| n <= j < RoundUp64(n) && 0 <= d < layers && p == PathOf(j, layers)[..d];
    GroupOfLast(n, j);
    SameGroup(j, n - 1, layers, d);
  }

  lemma AtLeast(n: nat)
    ensures n <= RoundUp64(n)
  {
  }

  lemma RoundedSameTree(n: nat, layers: nat)
    requires n > 0
    ensures Above(0, RoundUp64(n), layers) == Above(0, n, layers)
  {
    hide RoundUp64, PathOf, Above;
    AtLeast(n);
    AboveSplit(0, n, RoundUp64(n), layers);
    forall p | p in Above(n, RoundUp64(n), layers)
      ensures p in Above(0, n, layers)
    {
      AddedIsThere(n, layers, p);
    }
  }

  lemma {:induction false} LayersMonotonic(a: nat, b: nat)
    requires a <= b
    ensures Layers(a) <= Layers(b)
  {
    if a > 0 {
      LayersMonotonic(a / 64, b / 64);
    }
  }

  lemma {:induction false} PathZero(layers: nat, j: nat)
    requires layers > 0 && j > 0 && Layers(j) <= layers
    ensures exists l :: 0 <= l < layers && PathOf(j, layers)[l] != 0
  {
    if j % 64 != 0 {
      assert PathOf(j, layers)[layers - 1] != 0;
    } else {
      PathZero(layers - 1, j / 64);
      var l :| 0 <= l < layers - 1 && PathOf(j / 64, layers - 1)[l] != 0;
      assert PathOf(j, layers)[l] != 0;
    }
  }

  lemma {:induction false} ZeroPath(layers: nat)
    ensures forall l :: 0 <= l < layers ==> PathOf(0, layers)[l] == 0
  {
    if layers > 0 {
      ZeroPath(layers - 1);
    }
  }

  /** The deepest directory above segment 0 is not above any segment of another group. */
  lemma DeepestIsOfGroupZero(lo: nat, hi: nat, layers: nat)
    requires 64 <= lo && 0 < layers && Layers(hi) <= layers
    ensures PathOf(0, layers)[..layers - 1] !in Above(lo, hi, layers)
  {
    var deep := PathOf(0, layers)[..layers - 1];
    if deep in Above(lo, hi, layers) {
      var j, d :| lo <= j < hi && 0 <= d < layers && deep == PathOf(j, layers)[..d];
      assert d == layers - 1;
      LayersMonotonic(j, hi);
      PathZero(layers - 1, j / 64);
      ZeroPath(layers);
    }
  }

  /** Extending a volume gives the tree of the larger volume created at once exactly when
      both have the same number of layers. */
  lemma ExtendIsCreateIff(n0: nat, n: nat)
    requires 0 < n0 && RoundUp64(n0) < n
    ensures Above(0, n0, Layers(n0)) + Above(RoundUp64(n0), n, Layers(n)) == Above(0, n, Layers(n))
            <==> Layers(n0) == Layers(n)
  {
    var layers := Layers(n);
    LayersMonotonic(n0, n);
    if Layers(n0) == layers {
      RoundedSameTree(n0, layers);
      AboveSplit(0, RoundUp64(n0), n, layers);
    } else {
      var deep := PathOf(0, layers)[..layers - 1];
      assert deep in Above(0, n, layers);
      DeepestIsOfGroupZero(RoundUp64(n0), n, layers);
    }
  }

  // ----- who reads the tree back

  lemma {:induction false} LayersIff(n: nat, k: nat)
    requires n > 0
    ensures Layers(n) <= k <==> n < Pow64(k)
  {
    if k > 0 {
      if n / 64 > 0 {
        LayersIff(n / 64, k - 1);
      } else {
        assert Layers(n) == 1;
      }
    }
  }

  /** bs_css_open counts layers from the size the directories show, createISCSIVol from the
      number of segments. They agree exactly when the last group of 64 is not the last one
      that the creator's layers can name. */
  lemma OpenerDepthIff(n: nat)
    requires n > 0
    ensures Layers(RoundUp64(n)) == Layers(n) <==> n <= Pow64(Layers(n)) - 64
  {
    var k := Layers(n);
    LayersMonotonic(n, RoundUp64(n));
    LayersIff(RoundUp64(n), k);
    BelowPow(n);
    assert Pow64(k) == 64 * Pow64(k - 1);
  }

  /** A volume of five segments is made flat and opened two levels deep. */
  lemma SmallVolumeMismatch()
    ensures Layers(5) == 1 && RoundUp64(5) == 64 && Layers(RoundUp64(5)) == 2
  {
    assert Layers(1) == 1;
  }
}
