/**
 * The train/validation/test split script: for every class folder under a root it keeps
 * the image files, cuts their shuffled list into three consecutive slices and copies each
 * slice into `<root>/<split>/<class>/`.
 */
module DatasetSplit {
  import opened Wrappers
  import opened Text
  import opened Seqs
  import opened Events

  const SumMessage := "The sum of train, validation, and test proportions must equal 1.0"
  const OverlapMessage := "Overlap found between train, validation, and test sets."
  const Extensions: seq<string> := [".jpg", ".png", ".gif"]
  const Excluded: seq<string> := [".DS_Store"]

  /** `os.path.join(a, b)` for a relative `b`. */
  function PathJoin(a: string, b: string): string
  {
    a + "/" + b
  }

  predicate EndsWith(s: string, suffix: string)
  {
    |suffix| <= |s| && s[|s| - |suffix|..] == suffix
  }

  /** `any([str(name).endswith(extension) for extension in extensions])` */
  predicate IsImage(name: string)
  {
    exists i :: 0 <= i < |Extensions| && EndsWith(name, Extensions[i])
  }

  predicate Distinct(s: seq<string>)
  {
    forall i, j :: 0 <= i < j < |s| ==> s[i] != s[j]
  }

  /** The root's entries without '.DS_Store', in listing order. */
  function ClassNames(entries: seq<string>): (classes: seq<string>)
    ensures forall x :: x in classes <==> x in entries && x !in Excluded
  {
    if entries == [] then []
    else
      var last := entries[|entries| - 1];
      ClassNames(entries[..|entries| - 1]) + (if last in Excluded then [] else [last])
  }

  /** The entries ending in .jpg, .png or .gif, in listing order. */
  function ImageNames(entries: seq<string>): (images: seq<string>)
    ensures forall x :: x in images <==> x in entries && IsImage(x)
    ensures Distinct(entries) ==> Distinct(images)
  {
    if entries == [] then []
    else
      var init := entries[..|entries| - 1];
      var last := entries[|entries| - 1];
      var kept := ImageNames(init);
      assert Distinct(entries) ==> Distinct(init) && last !in init;
      kept + (if IsImage(last) then [last] else [])
  }

  /** The three slices of one class's shuffled images. */
  datatype Parts = Parts(train: seq<string>, validation: seq<string>, test: seq<string>)

  /** `int(p * n)`: the number of images a proportion `p` of `n` images gives. */
  function Share(p: real, count: nat): int
  {
    Trunc(p * count as real)
  }

  /** `images[:a]`, `images[a:b]` and `images[b:]`. */
  function SplitAt(images: seq<string>, a: int, b: int): Parts
  {
    Parts(Slice(images, 0, a), Slice(images, a, b), SliceFrom(images, b))
  }

  /**
   * Lines 34-39: `train` is the first `int(t·n)` images, `validation` the next `int(v·n)`
   * and `test` the rest, with Python's slicing of negative or too large bounds.
   */
  function SplitImages(images: seq<string>, t: real, v: real): Parts
  {
    var stop := Share(t, |images|);
    SplitAt(images, stop, stop + Share(v, |images|))
  }

  /** `len(set(train) & set(validation) & set(test)) == 0` */
  predicate NoTripleOverlap(p: Parts)
  {
    forall x :: x in p.train && x in p.validation ==> x !in p.test
  }

  /** The scaled shares are not negative and together at most `n`. */
  lemma ScaledShares(t: real, v: real, n: real)
    requires 0.0 <= t && 0.0 <= v && t + v <= 1.0 && 0.0 <= n
    ensures 0.0 <= t * n && 0.0 <= v * n && t * n + v * n <= n
  {
    assert t * n + v * n == (t + v) * n;
    assert (1.0 - (t + v)) * n >= 0.0;
  }

  /** Truncations of two non-negative amounts whose sum is at most `count` sum to at most `count`. */
  lemma TruncSum(x: real, y: real, count: nat)
    requires 0.0 <= x && 0.0 <= y && x + y <= count as real
    ensures 0 <= Trunc(x) && 0 <= Trunc(y) && Trunc(x) + Trunc(y) <= count
  {
    assert (Trunc(x) + Trunc(y)) as real <= count as real;
  }

  /** Both cut points lie inside the list when the shares are not negative and sum to at most 1. */
  lemma CutPoints(count: nat, t: real, v: real)
    requires 0.0 <= t && 0.0 <= v && t + v <= 1.0
    ensures 0 <= Share(t, count) <= Share(t, count) + Share(v, count) <= count
  {
    ScaledShares(t, v, count as real);
    TruncSum(t * count as real, v * count as real, count);
  }

  /** Cuts inside the list give consecutive slices of the chosen sizes that make up the list. */
  lemma SplitAtPartition(images: seq<string>, a: int, b: int)
    requires 0 <= a <= b <= |images|
    ensures var p := SplitAt(images, a, b);
      p.train + p.validation + p.test == images && |p.train| == a && |p.validation| == b - a
  {
    assert images[..a] + images[a..b] + images[b..] == images;
  }

  /**
   * With proportions that are not negative and leave a non-negative test share, the three
   * slices are consecutive, have `int(t·n)` and `int(v·n)` images, and together are the
   * shuffled list.
   */
  lemma SplitPartition(images: seq<string>, t: real, v: real)
    requires 0.0 <= t && 0.0 <= v && t + v <= 1.0
    ensures var p := SplitImages(images, t, v);
      p.train + p.validation + p.test == images &&
      |p.train| == Share(t, |images|) && |p.validation| == Share(v, |images|)
  {
    CutPoints(|images|, t, v);
    var a := Share(t, |images|);
    SplitAtPartition(images, a, a + Share(v, |images|));
  }

  /** For distinct names the three slices are pairwise disjoint, which the overlap check needs only as a triple. */
  lemma SplitDisjoint(images: seq<string>, t: real, v: real)
    requires 0.0 <= t && 0.0 <= v && t + v <= 1.0
    requires Distinct(images)
    ensures var p := SplitImages(images, t, v);
      (forall x :: x in p.train ==> x !in p.validation && x !in p.test) &&
      (forall x :: x in p.validation ==> x !in p.test)
    ensures NoTripleOverlap(SplitImages(images, t, v))
  {
    var p := SplitImages(images, t, v);
    SplitPartition(images, t, v);
    PartsDisjoint(p.train, p.validation, p.test);
  }

  /** Three consecutive parts of a list without repeats share no name. */
  lemma PartsDisjoint(x: seq<string>, y: seq<string>, z: seq<string>)
    requires Distinct(x + y + z)
    ensures forall e :: e in x ==> e !in y && e !in z
    ensures forall e :: e in y ==> e !in z
  {
    var s := x + y + z;
    forall i, j | 0 <= i < |x| && 0 <= j < |y|
      ensures x[i] != y[j]
    {
      assert x[i] == s[i] && y[j] == s[|x| + j];
    }
    forall i, j | 0 <= i < |x| && 0 <= j < |z|
      ensures x[i] != z[j]
    {
      assert x[i] == s[i] && z[j] == s[|x| + |y| + j];
    }
    forall i, j | 0 <= i < |y| && 0 <= j < |z|
      ensures y[i] != z[j]
    {
      assert y[i] == s[|x| + i] && z[j] == s[|x| + |y| + j];
    }
  }

  /**
   * Proportions outside [0, 1] can still sum to 1.0: with -0.5, 0.5 and 1.0 and four
   * images, `train` is the first two, `validation` is empty and `test` is all four, so
   * train and test share images while the triple check passes.
   */
  lemma NegativeProportionOverlap()
    ensures var p := SplitImages(["a.jpg", "b.jpg", "c.jpg", "d.jpg"], -0.5, 0.5);
      -0.5 + 0.5 + 1.0 == 1.0 && NoTripleOverlap(p) && "a.jpg" in p.train && "a.jpg" in p.test
  {
    var images := ["a.jpg", "b.jpg", "c.jpg", "d.jpg"];
    assert Share(-0.5, 4) == -2 by { assert -0.5 * 4 as real == -2.0; }
    assert Share(0.5, 4) == 2 by { assert 0.5 * 4 as real == 2.0; }
    var p := SplitImages(images, -0.5, 0.5);
    assert SliceBound(-2, 4) == 2;
    assert p.train == images[0..2];
    assert p.train[0] == "a.jpg";
    assert |p.validation| == 0;
    assert p.test == images;
  }

  /** The directories and files of the local file system. */
  datatype Disk = Disk(dirs: set<string>, files: map<string, Blob>)

  /** The directories `os.makedirs(path)` makes: `path` and every prefix of it ending before a '/'. */
  function Ancestors(path: string): set<string>
  {
    (set i | 0 < i < |path| && path[i] == '/' :: path[..i]) + {path}
  }

  /** Lines 48-49: the class folder of a split, made with its parents unless it is already there. */
  function Place(d: Disk, dir: string): (r: Disk)
    ensures dir in r.dirs && r.files == d.files
  {
    if dir in d.dirs then d else d.(dirs := d.dirs + Ancestors(dir))
  }

  /** `copyfile(src, dir/name)`: needs the source file and the destination folder. */
  function CopyOn(d: Disk, src: string, dir: string, name: string): Result<Disk>
  {
    if src !in d.files then Err(OSError(src))
    else if dir !in d.dirs then Err(OSError(PathJoin(dir, name)))
    else Ok(d.(files := d.files[PathJoin(dir, name) := d.files[src]]))
  }

  /** Lines 51-52: the images copied one after the other; the first failure stops the rest. */
  function CopyAll(d: Disk, source: string, dir: string, names: seq<string>): (Disk, Result<()>)
    decreases names
  {
    if names == [] then (d, Ok(()))
    else
      match CopyOn(d, PathJoin(source, names[0]), dir, names[0])
      case Err(e) => (d, Err(e))
      case Ok(d') => CopyAll(d', source, dir, names[1..])
  }

  /** A path joined to a name without '/' determines both. */
  lemma PathJoinInjective(a: string, m: string, b: string, n: string)
    requires '/' !in m && '/' !in n
    requires PathJoin(a, m) == PathJoin(b, n)
    ensures a == b && m == n
  {
    LastSegmentAfter(a, '/', m);
    LastSegmentAfter(b, '/', n);
    assert PathJoin(a, m)[..|a|] == a;
  }

  /** The destination paths of a list of names copied into `dir`. */
  function Targets(dir: string, names: seq<string>): set<string>
  {
    set n | n in names :: PathJoin(dir, n)
  }

  /**
   * A successful copy of a list of names into a folder changes no directory, adds exactly
   * the destination paths and leaves every file that is not a destination as it was.
   */
  lemma {:induction false} CopyAllFrame(d: Disk, source: string, dir: string, names: seq<string>)
    decreases names
    requires CopyAll(d, source, dir, names).1.Ok?
    ensures var after := CopyAll(d, source, dir, names).0;
      after.dirs == d.dirs &&
      after.files.Keys == d.files.Keys + Targets(dir, names) &&
      (forall p :: p in d.files && p !in Targets(dir, names) ==> after.files[p] == d.files[p])
  {
    if names != [] {
      var rest := names[1..];
      var d' := CopyOn(d, PathJoin(source, names[0]), dir, names[0]).value;
      CopyAllFrame(d', source, dir, rest);
      assert Targets(dir, names) == {PathJoin(dir, names[0])} + Targets(dir, rest);
    }
  }

  /**
   * A successful copy from one folder into another of names without '/' leaves, under each
   * name, the content the source folder had under it.
   */
  lemma {:induction false} CopyAllContents(d: Disk, source: string, dir: string, names: seq<string>)
    decreases names
    requires CopyAll(d, source, dir, names).1.Ok?
    requires source != dir && forall i :: 0 <= i < |names| ==> '/' !in names[i]
    ensures var after := CopyAll(d, source, dir, names).0;
      forall n :: n in names ==> (PathJoin(source, n) in d.files && PathJoin(dir, n) in after.files &&
                                  after.files[PathJoin(dir, n)] == d.files[PathJoin(source, n)])
  {
    if names != [] {
      var first := names[0];
      var rest := names[1..];
      var d' := CopyOn(d, PathJoin(source, first), dir, first).value;
      assert forall i :: 0 <= i < |rest| ==> rest[i] == names[i + 1];
      CopyAllContents(d', source, dir, rest);
      forall n | n in rest
        ensures PathJoin(source, n) in d.files && d'.files[PathJoin(source, n)] == d.files[PathJoin(source, n)]
      {
        if PathJoin(source, n) == PathJoin(dir, first) {
          PathJoinInjective(source, n, dir, first);
        }
      }
      CopyAllFrame(d', source, dir, rest);
      if first !in rest {
        assert PathJoin(dir, first) !in Targets(dir, rest) by {
          if PathJoin(dir, first) in Targets(dir, rest) {
            var m :| m in rest && PathJoin(dir, m) == PathJoin(dir, first);
            PathJoinInjective(dir, m, dir, first);
          }
        }
      }
    }
  }

  /** The three splits of one class with their folder names. */
  function SplitList(p: Parts): seq<(string, seq<string>)>
  {
    [("train", p.train), ("validation", p.validation), ("test", p.test)]
  }

  /** Line 46: `<root>/<split>/<class>`, the folder a split of a class goes to. */
  function SplitDir(root: string, split: string, cls: string): string
  {
    PathJoin(PathJoin(root, split), cls)
  }

  /** Lines 43-52: each split into `<root>/<split>/<class>`, in the order train, validation, test. */
  function PlaceSplits(d: Disk, root: string, cls: string, splits: seq<(string, seq<string>)>): (Disk, Result<()>)
    decreases splits
  {
    if splits == [] then (d, Ok(()))
    else
      var dir := SplitDir(root, splits[0].0, cls);
      var (d', r) := CopyAll(Place(d, dir), PathJoin(root, cls), dir, splits[0].1);
      if r.Err? then (d', r) else PlaceSplits(d', root, cls, splits[1..])
  }

  /**
   * Lines 30-52 for one class: list, filter, shuffle, split, check, copy. `listing` gives
   * each class folder's entries and `shuffle` stands for the seeded `numpy` shuffle.
   */
  function SplitClass(d: Disk, root: string, cls: string, t: real, v: real,
                      listing: map<string, seq<string>>, shuffle: seq<string> -> seq<string>): (Disk, Result<()>)
  {
    if cls !in listing then (d, Err(OSError(PathJoin(root, cls))))
    else
      var p := SplitImages(shuffle(ImageNames(listing[cls])), t, v);
      if !NoTripleOverlap(p) then (d, Err(AssertionError(OverlapMessage)))
      else PlaceSplits(d, root, cls, SplitList(p))
  }

  /** The loop over the classes; the first failure stops the script, keeping what was copied. */
  function SplitClasses(d: Disk, root: string, classes: seq<string>, t: real, v: real,
                        listing: map<string, seq<string>>, shuffle: seq<string> -> seq<string>): (Disk, Result<()>)
    decreases classes
  {
    if classes == [] then (d, Ok(()))
    else
      var (d', r) := SplitClass(d, root, classes[0], t, v, listing, shuffle);
      if r.Err? then (d', r) else SplitClasses(d', root, classes[1..], t, v, listing, shuffle)
  }

  /** The whole script: the proportions must sum to exactly 1.0 before anything is touched. */
  function Script(d: Disk, root: string, t: real, v: real, e: real, entries: seq<string>,
                  listing: map<string, seq<string>>, shuffle: seq<string> -> seq<string>): (Disk, Result<()>)
  {
    if t + v + e != 1.0 then (d, Err(AssertionError(SumMessage)))
    else SplitClasses(d, root, ClassNames(entries), t, v, listing, shuffle)
  }

  /** Split folders and names without '/', split names pairwise different. */
  predicate Separate(cls: string, splits: seq<(string, seq<string>)>)
  {
    '/' !in cls &&
    (forall j :: 0 <= j < |splits| ==> '/' !in splits[j].0 && forall k :: 0 <= k < |splits[j].1| ==> '/' !in splits[j].1[k]) &&
    (forall j, k :: 0 <= j < k < |splits| ==> splits[j].0 != splits[k].0)
  }

  /** Different split names give different folders. */
  lemma SplitDirsDiffer(root: string, a: string, b: string, cls: string)
    requires '/' !in a && '/' !in b && '/' !in cls && a != b
    ensures SplitDir(root, a, cls) != SplitDir(root, b, cls)
  {
    if SplitDir(root, a, cls) == SplitDir(root, b, cls) {
      PathJoinInjective(PathJoin(root, a), cls, PathJoin(root, b), cls);
      PathJoinInjective(root, a, root, b);
    }
  }

  /** The class folder is none of its split folders. */
  lemma SourceIsNoSplitDir(root: string, a: string, cls: string)
    requires '/' !in cls
    ensures PathJoin(root, cls) != SplitDir(root, a, cls)
  {
    if PathJoin(root, cls) == SplitDir(root, a, cls) {
      PathJoinInjective(root, cls, PathJoin(root, a), cls);
    }
  }

  /** A path none of the splits copies to. */
  predicate Untouched(p: string, root: string, cls: string, splits: seq<(string, seq<string>)>)
  {
    forall j :: 0 <= j < |splits| ==> p !in Targets(SplitDir(root, splits[j].0, cls), splits[j].1)
  }

  /** Successful split copies leave every file they do not copy to as it was. */
  lemma {:induction false} PlaceSplitsFrame(d: Disk, root: string, cls: string, splits: seq<(string, seq<string>)>)
    requires PlaceSplits(d, root, cls, splits).1.Ok?
    decreases splits
    ensures var after := PlaceSplits(d, root, cls, splits).0;
      forall p :: p in d.files && Untouched(p, root, cls, splits) ==> p in after.files && after.files[p] == d.files[p]
  {
    if splits != [] {
      var dir := SplitDir(root, splits[0].0, cls);
      var placed := Place(d, dir);
      var d' := CopyAll(placed, PathJoin(root, cls), dir, splits[0].1).0;
      CopyAllFrame(placed, PathJoin(root, cls), dir, splits[0].1);
      PlaceSplitsFrame(d', root, cls, splits[1..]);
      forall p | p in d.files && Untouched(p, root, cls, splits)
        ensures Untouched(p, root, cls, splits[1..])
      {
        forall j | 0 <= j < |splits| - 1
          ensures p !in Targets(SplitDir(root, splits[1..][j].0, cls), splits[1..][j].1)
        {
          assert splits[1..][j] == splits[j + 1];
        }
      }
    }
  }

  /** The name `n` of the class folder is in the split's folder with the content it had before. */
  predicate Placed(before: Disk, after: Disk, root: string, cls: string, split: string, n: string)
  {
    PathJoin(PathJoin(root, cls), n) in before.files && PathJoin(SplitDir(root, split, cls), n) in after.files &&
    after.files[PathJoin(SplitDir(root, split, cls), n)] == before.files[PathJoin(PathJoin(root, cls), n)]
  }

  /** The later splits of separate splits never copy onto the first split's files. */
  lemma FirstTargetsUntouched(root: string, cls: string, splits: seq<(string, seq<string>)>)
    requires splits != [] && Separate(cls, splits)
    ensures forall n :: n in splits[0].1 ==> Untouched(PathJoin(SplitDir(root, splits[0].0, cls), n), root, cls, splits[1..])
  {
    var dir := SplitDir(root, splits[0].0, cls);
    var rest := splits[1..];
    forall n | n in splits[0].1
      ensures Untouched(PathJoin(dir, n), root, cls, rest)
    {
      forall j | 0 <= j < |rest|
        ensures PathJoin(dir, n) !in Targets(SplitDir(root, rest[j].0, cls), rest[j].1)
      {
        assert rest[j] == splits[j + 1];
        SplitDirsDiffer(root, splits[0].0, rest[j].0, cls);
        if PathJoin(dir, n) in Targets(SplitDir(root, rest[j].0, cls), rest[j].1) {
          var m :| m in rest[j].1 && PathJoin(SplitDir(root, rest[j].0, cls), m) == PathJoin(dir, n);
          PathJoinInjective(SplitDir(root, rest[j].0, cls), m, dir, n);
        }
      }
    }
  }

  /**
   * Successful split copies of separate splits leave each split's names in the split's
   * folder with the content the class folder had under them.
   */
  lemma {:induction false} PlaceSplitsContents(d: Disk, root: string, cls: string, splits: seq<(string, seq<string>)>)
    requires PlaceSplits(d, root, cls, splits).1.Ok? && Separate(cls, splits)
    decreases splits
    ensures var after := PlaceSplits(d, root, cls, splits).0;
      forall j, n :: 0 <= j < |splits| && n in splits[j].1 ==> Placed(d, after, root, cls, splits[j].0, n)
  {
    if splits != [] {
      var source := PathJoin(root, cls);
      var dir := SplitDir(root, splits[0].0, cls);
      var placed := Place(d, dir);
      var d' := CopyAll(placed, source, dir, splits[0].1).0;
      var rest := splits[1..];
      var after := PlaceSplits(d, root, cls, splits).0;
      SourceIsNoSplitDir(root, splits[0].0, cls);
      CopyAllFrame(placed, source, dir, splits[0].1);
      CopyAllContents(placed, source, dir, splits[0].1);
      assert Separate(cls, rest) by {
        assert forall j :: 0 <= j < |rest| ==> rest[j] == splits[j + 1];
      }
      PlaceSplitsContents(d', root, cls, rest);
      PlaceSplitsFrame(d', root, cls, rest);
      FirstTargetsUntouched(root, cls, splits);
      assert after == PlaceSplits(d', root, cls, rest).0;
      forall j, n | 0 <= j < |splits| && n in splits[j].1
        ensures Placed(d, after, root, cls, splits[j].0, n)
      {
        var src := PathJoin(source, n);
        if j == 0 {
          assert Untouched(PathJoin(dir, n), root, cls, rest);
          assert d'.files[PathJoin(dir, n)] == placed.files[src];
        } else {
          assert splits[j] == rest[j - 1];
          var target := PathJoin(SplitDir(root, rest[j - 1].0, cls), n);
          assert src in d'.files && target in after.files && after.files[target] == d'.files[src];
          if src in Targets(dir, splits[0].1) {
            var m :| m in splits[0].1 && PathJoin(dir, m) == src;
            PathJoinInjective(dir, m, source, n);
          }
          assert src in placed.files && d'.files[src] == placed.files[src];
          assert Placed(d', after, root, cls, rest[j - 1].0, n);
        }
      }
    }
  }

  /** The slices hold names of the list only, so names without '/' stay so. */
  lemma SlicesWithoutSlash(images: seq<string>, t: real, v: real)
    requires forall k :: 0 <= k < |images| ==> '/' !in images[k]
    ensures var p := SplitImages(images, t, v);
      (forall k :: 0 <= k < |p.train| ==> '/' !in p.train[k]) &&
      (forall k :: 0 <= k < |p.validation| ==> '/' !in p.validation[k]) &&
      (forall k :: 0 <= k < |p.test| ==> '/' !in p.test[k])
  {
    var p := SplitImages(images, t, v);
    forall x | x in p.train || x in p.validation || x in p.test
      ensures '/' !in x
    {
      var k :| 0 <= k < |images| && images[k] == x;
    }
  }

  /** The three splits have different names without '/'. */
  lemma SplitListSeparate(p: Parts, cls: string)
    requires '/' !in cls
    requires forall k :: 0 <= k < |p.train| ==> '/' !in p.train[k]
    requires forall k :: 0 <= k < |p.validation| ==> '/' !in p.validation[k]
    requires forall k :: 0 <= k < |p.test| ==> '/' !in p.test[k]
    ensures Separate(cls, SplitList(p))
  {
    var splits := SplitList(p);
    assert splits[0].0 == "train" && splits[1].0 == "validation" && splits[2].0 == "test";
    assert |"train"| != |"validation"| && |"train"| != |"test"| && |"validation"| != |"test"|;
  }

  /**
   * A successfully split class has every image of its train, validation and test slices in
   * `<root>/train/<class>`, `<root>/validation/<class>` and `<root>/test/<class>` with the
   * content it has in `<root>/<class>`, once the shuffled names have no '/'.
   */
  lemma SlashFreeSplitPlaces(d: Disk, root: string, cls: string, t: real, v: real,
                         listing: map<string, seq<string>>, shuffle: seq<string> -> seq<string>)
    requires SplitClass(d, root, cls, t, v, listing, shuffle).1.Ok?
    requires cls in listing && '/' !in cls
    requires forall k :: 0 <= k < |shuffle(ImageNames(listing[cls]))| ==> '/' !in shuffle(ImageNames(listing[cls]))[k]
    ensures var p := SplitImages(shuffle(ImageNames(listing[cls])), t, v);
      var after := SplitClass(d, root, cls, t, v, listing, shuffle).0;
      (forall n :: n in p.train ==> Placed(d, after, root, cls, "train", n)) &&
      (forall n :: n in p.validation ==> Placed(d, after, root, cls, "validation", n)) &&
      (forall n :: n in p.test ==> Placed(d, after, root, cls, "test", n))
  {
    var p := SplitImages(shuffle(ImageNames(listing[cls])), t, v);
    SlicesWithoutSlash(shuffle(ImageNames(listing[cls])), t, v);
    SplitListSeparate(p, cls);
    var splits := SplitList(p);
    var after := PlaceSplits(d, root, cls, splits).0;
    assert SplitClass(d, root, cls, t, v, listing, shuffle) == PlaceSplits(d, root, cls, splits);
    PlaceSplitsContents(d, root, cls, splits);
    assert splits[0] == ("train", p.train) && splits[1] == ("validation", p.validation) && splits[2] == ("test", p.test);
    forall n | n in p.train ensures Placed(d, after, root, cls, "train", n) {
      assert n in splits[0].1;
    }
    forall n | n in p.validation ensures Placed(d, after, root, cls, "validation", n) {
      assert n in splits[1].1;
    }
    forall n | n in p.test ensures Placed(d, after, root, cls, "test", n) {
      assert n in splits[2].1;
    }
  }

  /**
   * A successfully split class has every image of its train, validation and test slices in
   * `<root>/train/<class>`, `<root>/validation/<class>` and `<root>/test/<class>` with the
   * content it has in `<root>/<class>`, for a listing whose names have no '/' and a shuffle
   * that only reorders.
   */
  lemma SplitClassPlaces(d: Disk, root: string, cls: string, t: real, v: real,
                         listing: map<string, seq<string>>, shuffle: seq<string> -> seq<string>)
    requires SplitClass(d, root, cls, t, v, listing, shuffle).1.Ok?
    requires cls in listing && '/' !in cls
    requires Permutes(shuffle) && forall k :: 0 <= k < |listing[cls]| ==> '/' !in listing[cls][k]
    ensures var p := SplitImages(shuffle(ImageNames(listing[cls])), t, v);
      var after := SplitClass(d, root, cls, t, v, listing, shuffle).0;
      (forall n :: n in p.train ==> Placed(d, after, root, cls, "train", n)) &&
      (forall n :: n in p.validation ==> Placed(d, after, root, cls, "validation", n)) &&
      (forall n :: n in p.test ==> Placed(d, after, root, cls, "test", n))
  {
    ShuffledWithoutSlash(listing[cls], shuffle);
    SlashFreeSplitPlaces(d, root, cls, t, v, listing, shuffle);
  }

  /** A failure of the copies is a file-system error. */
  predicate FileError(r: Result<()>)
  {
    r.Err? ==> r.error.OSError?
  }

  lemma {:induction false} CopyAllFileErrors(d: Disk, source: string, dir: string, names: seq<string>)
    decreases names
    ensures FileError(CopyAll(d, source, dir, names).1)
  {
    if names != [] {
      match CopyOn(d, PathJoin(source, names[0]), dir, names[0])
      case Err(e) =>
      case Ok(d') => CopyAllFileErrors(d', source, dir, names[1..]);
    }
  }

  lemma {:induction false} PlaceSplitsFileErrors(d: Disk, root: string, cls: string, splits: seq<(string, seq<string>)>)
    decreases splits
    ensures FileError(PlaceSplits(d, root, cls, splits).1)
  {
    if splits != [] {
      var dir := SplitDir(root, splits[0].0, cls);
      var (d', r) := CopyAll(Place(d, dir), PathJoin(root, cls), dir, splits[0].1);
      CopyAllFileErrors(Place(d, dir), PathJoin(root, cls), dir, splits[0].1);
      if r.Ok? {
        PlaceSplitsFileErrors(d', root, cls, splits[1..]);
      }
    }
  }

  /** Once the sum check is passed no later step fails with its message. */
  lemma {:induction false} ClassesNeverSumError(d: Disk, root: string, classes: seq<string>, t: real, v: real,
                                                listing: map<string, seq<string>>, shuffle: seq<string> -> seq<string>)
    decreases classes
    ensures SplitClasses(d, root, classes, t, v, listing, shuffle).1 != Err(AssertionError(SumMessage))
  {
    if classes != [] {
      var cls := classes[0];
      var (d', r) := SplitClass(d, root, cls, t, v, listing, shuffle);
      assert |OverlapMessage| != |SumMessage|;
      if cls in listing {
        var p := SplitImages(shuffle(ImageNames(listing[cls])), t, v);
        if NoTripleOverlap(p) {
          PlaceSplitsFileErrors(d, root, cls, SplitList(p));
        }
      }
      if r.Ok? {
        ClassesNeverSumError(d', root, classes[1..], t, v, listing, shuffle);
      }
    }
  }

  /**
   * The script stops with the sum message, untouched, exactly when the proportions do not
   * sum to 1.0.
   */
  lemma SumChecked(d: Disk, root: string, t: real, v: real, e: real, entries: seq<string>,
                   listing: map<string, seq<string>>, shuffle: seq<string> -> seq<string>)
    ensures Script(d, root, t, v, e, entries, listing, shuffle) == (d, Err(AssertionError(SumMessage))) <==> t + v + e != 1.0
  {
    ClassesNeverSumError(d, root, ClassNames(entries), t, v, listing, shuffle);
  }

  /**
   * With valid proportions, a folder listing without repeated names and a shuffle that
   * only reorders, a listed class never fails the overlap check.
   */
  lemma OverlapCheckPasses(listing: map<string, seq<string>>, cls: string, t: real, v: real,
                           shuffle: seq<string> -> seq<string>)
    requires cls in listing && 0.0 <= t && 0.0 <= v && t + v <= 1.0
    requires Distinct(listing[cls]) && Permutes(shuffle)
    ensures NoTripleOverlap(SplitImages(shuffle(ImageNames(listing[cls])), t, v))
  {
    var images := ImageNames(listing[cls]);
    PermutationDistinct(images, shuffle(images));
    SplitDisjoint(shuffle(images), t, v);
  }

  /** `shuffle` stands for a seeded shuffle: it reorders a list and keeps every name. */
  ghost predicate Permutes(shuffle: seq<string> -> seq<string>)
  {
    forall s :: multiset(shuffle(s)) == multiset(s)
  }

  /** A list without repeats holds each name at most once. */
  lemma {:induction false} DistinctCount(a: seq<string>, x: string)
    requires Distinct(a)
    decreases |a|
    ensures multiset(a)[x] <= 1
  {
    if a != [] {
      var init, last := a[..|a| - 1], a[|a| - 1];
      assert a == init + [last];
      assert Distinct(init) by {
        forall i, j | 0 <= i < j < |init| ensures init[i] != init[j] {
          assert init[i] == a[i] && init[j] == a[j];
        }
      }
      DistinctCount(init, x);
      if x == last {
        forall k | 0 <= k < |init| ensures init[k] != x {
          assert init[k] == a[k];
        }
        assert x !in multiset(init);
      }
    }
  }

  /** A reordering of a list without repeats has none. */
  lemma PermutationDistinct(a: seq<string>, b: seq<string>)
    requires multiset(a) == multiset(b) && Distinct(a)
    ensures Distinct(b)
  {
    forall i, j | 0 <= i < j < |b| ensures b[i] != b[j] {
      if b[i] == b[j] {
        var x := b[i];
        assert b == b[..j] + b[j..];
        assert b[..j][i] == x && b[j..][0] == x;
        assert multiset(b)[x] == multiset(b[..j])[x] + multiset(b[j..])[x];
        DistinctCount(a, x);
        assert false;
      }
    }
  }

  /** Shuffling the images of a listing without '/' in its names gives names without '/'. */
  lemma ShuffledWithoutSlash(entries: seq<string>, shuffle: seq<string> -> seq<string>)
    requires Permutes(shuffle) && forall k :: 0 <= k < |entries| ==> '/' !in entries[k]
    ensures var s := shuffle(ImageNames(entries)); forall k :: 0 <= k < |s| ==> '/' !in s[k]
  {
    var images := ImageNames(entries);
    var s := shuffle(images);
    forall k | 0 <= k < |s| ensures '/' !in s[k] {
      assert s[k] in multiset(s);
      assert s[k] in multiset(images);
      assert s[k] in entries;
    }
  }

  /** The local file system the script works on. */
  class FileSystem {
    var dirs: set<string>
    var files: map<string, Blob>

    function Contents(): Disk
      reads this
    {
      Disk(dirs, files)
    }

    constructor (initial: Disk)
      ensures Contents() == initial
    {
      dirs := initial.dirs;
      files := initial.files;
    }

    /** `os.path.isdir(path)` */
    predicate IsDir(path: string)
      reads this
    {
      path in dirs
    }

    /** `os.makedirs(path)` */
    method MakeDirs(path: string)
      modifies this
      ensures Contents() == old(Contents()).(dirs := old(dirs) + Ancestors(path))
    {
      dirs := dirs + Ancestors(path);
    }

    /** `copyfile(src, dir/name)` */
    method CopyFile(src: string, dir: string, name: string) returns (r: Result<()>)
      modifies this
      ensures r.Ok? <==> CopyOn(old(Contents()), src, dir, name).Ok?
      ensures r.Ok? ==> Contents() == CopyOn(old(Contents()), src, dir, name).value
      ensures r.Err? ==> r.error == CopyOn(old(Contents()), src, dir, name).error && Contents() == old(Contents())
    {
      if src !in files {
        return Err(OSError(src));
      }
      if dir !in dirs {
        return Err(OSError(PathJoin(dir, name)));
      }
      files := files[PathJoin(dir, name) := files[src]];
      r := Ok(());
    }
  }

  /** Lines 51-52 */
  method CopyImages(fs: FileSystem, source: string, dir: string, names: seq<string>) returns (r: Result<()>)
    modifies fs
    ensures (fs.Contents(), r) == CopyAll(old(fs.Contents()), source, dir, names)
  {
    for i := 0 to |names|
      invariant CopyAll(fs.Contents(), source, dir, names[i..]) == CopyAll(old(fs.Contents()), source, dir, names)
    {
      assert names[i..][1..] == names[i + 1..];
      var copied := fs.CopyFile(PathJoin(source, names[i]), dir, names[i]);
      if copied.Err? {
        return copied;
      }
    }
    r := Ok(());
  }

  /** Lines 43-52 */
  method CopySplits(fs: FileSystem, root: string, cls: string, splits: seq<(string, seq<string>)>) returns (r: Result<()>)
    modifies fs
    ensures (fs.Contents(), r) == PlaceSplits(old(fs.Contents()), root, cls, splits)
  {
    for k := 0 to |splits|
      invariant PlaceSplits(fs.Contents(), root, cls, splits[k..]) == PlaceSplits(old(fs.Contents()), root, cls, splits)
    {
      assert splits[k..][1..] == splits[k + 1..];
      var destination := SplitDir(root, splits[k].0, cls);
      if !fs.IsDir(destination) {
        fs.MakeDirs(destination);
      }
      var copied := CopyImages(fs, PathJoin(root, cls), destination, splits[k].1);
      if copied.Err? {
        return copied;
      }
    }
    r := Ok(());
  }

  /** Lines 17-52: the sum check, then every class in listing order. */
  method RunScript(fs: FileSystem, root: string, t: real, v: real, e: real, entries: seq<string>,
                      listing: map<string, seq<string>>, shuffle: seq<string> -> seq<string>) returns (r: Result<()>)
    modifies fs
    ensures (fs.Contents(), r) == Script(old(fs.Contents()), root, t, v, e, entries, listing, shuffle)
  {
    if t + v + e != 1.0 {
      return Err(AssertionError(SumMessage));
    }
    var classes := ClassNames(entries);
    for c := 0 to |classes|
      invariant SplitClasses(fs.Contents(), root, classes[c..], t, v, listing, shuffle)
        == SplitClasses(old(fs.Contents()), root, classes, t, v, listing, shuffle)
    {
      assert classes[c..][1..] == classes[c + 1..];
      var cls := classes[c];
      if cls !in listing {
        return Err(OSError(PathJoin(root, cls)));
      }
      var images := ImageNames(listing[cls]);
      images := shuffle(images);
      var parts := SplitImages(images, t, v);
      if !NoTripleOverlap(parts) {
        return Err(AssertionError(OverlapMessage));
      }
      var done := CopySplits(fs, root, cls, SplitList(parts));
      if done.Err? {
        return done;
      }
    }
    r := Ok(());
  }
}
