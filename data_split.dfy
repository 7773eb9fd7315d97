/** The dataset splitter `data_split`: every folder of the data root is a class whose
    label is its position in the listing; every entry of a folder becomes a sample
    (path, label); each class's samples are then divided between a training record and
    a validation record by an index split supplied per class. */
module DataSplit {

  /** One entry of the data root's listing: a class folder and the names its own
      listing yields, in listing order. */
  datatype Folder = Folder(name: string, items: seq<string>)

  /** The path os.path.join(root, folder, item), kept as its three parts. */
  datatype ImagePath = ImagePath(root: string, folder: string, item: string)

  /** The {'img_path': [...], 'label': [...]} record: two lists meant to run in parallel. */
  datatype SampleSet = SampleSet(imgPaths: seq<ImagePath>, labels: seq<int>)

  /** What train_test_split returned for one class: the training indices and the test
      (validation) indices. */
  datatype IndexSplit = IndexSplit(train: seq<nat>, test: seq<nat>)

  const EMPTY: SampleSet := SampleSet([], [])

  /** os.listdir never yields a name twice. */
  predicate DistinctNames(listing: seq<Folder>)
  {
    forall j, k :: 0 <= j < k < |listing| ==> listing[j].name != listing[k].name
  }

  /** Every index of `idx` is a position of a list of length `n`. */
  predicate InRange(idx: seq<nat>, n: nat)
  {
    forall t :: 0 <= t < |idx| ==> idx[t] < n
  }

  /** The indices 0, 1, ..., n - 1. */
  function Range(n: nat): (r: seq<nat>)
    ensures |r| == n && forall i :: 0 <= i < n ==> r[i] == i
  {
    seq(n, i => i)
  }

  /** The split is a partition of 0..n-1: every index occurs exactly once in the
      training and test lists together, and nothing else occurs in them. */
  predicate IsIndexSplit(s: IndexSplit, n: nat)
  {
    multiset(s.train) + multiset(s.test) == multiset(Range(n))
  }

  /** The two lists of a record have equal length. */
  predicate Parallel(s: SampleSet)
  {
    |s.imgPaths| == |s.labels|
  }

  /** The list `class_names`: the folder names in listing order. */
  function Names(listing: seq<Folder>): (r: seq<string>)
    ensures |r| == |listing| && forall k :: 0 <= k < |listing| ==> r[k] == listing[k].name
  {
    seq(|listing|, k requires 0 <= k < |listing| => listing[k].name)
  }

  /** The paths of a folder's entries, in its listing order. */
  function FolderPaths(root: string, f: Folder): (r: seq<ImagePath>)
    ensures |r| == |f.items|
    ensures forall j :: 0 <= j < |r| ==> r[j] == ImagePath(root, f.name, f.items[j])
  {
    seq(|f.items|, j requires 0 <= j < |f.items| => ImagePath(root, f.name, f.items[j]))
  }

  /** The record `data[folder]` built for the folder with label `k`. */
  function FolderSamples(root: string, f: Folder, k: int): (r: SampleSet)
    ensures Parallel(r) && r.imgPaths == FolderPaths(root, f)
    ensures forall j :: 0 <= j < |r.labels| ==> r.labels[j] == k
  {
    SampleSet(FolderPaths(root, f), seq(|f.items|, _ => k))
  }

  /** The elements of `p` at the positions `idx`, in the order of `idx`. */
  function Gather<T>(p: seq<T>, idx: seq<nat>): (r: seq<T>)
    requires InRange(idx, |p|)
    ensures |r| == |idx| && forall t :: 0 <= t < |idx| ==> r[t] == p[idx[t]]
  {
    seq(|idx|, t requires 0 <= t < |idx| => p[idx[t]])
  }

  /** The samples of `s` at the positions `idx`, path and label alike. */
  function Pick(s: SampleSet, idx: seq<nat>): (r: SampleSet)
    requires Parallel(s) && InRange(idx, |s.labels|)
    ensures Parallel(r) && |r.labels| == |idx|
  {
    SampleSet(Gather(s.imgPaths, idx), Gather(s.labels, idx))
  }

  /** Both lists of `a` followed by those of `b`. */
  function Append(a: SampleSet, b: SampleSet): SampleSet
  {
    SampleSet(a.imgPaths + b.imgPaths, a.labels + b.labels)
  }

  /** The training indices of every class. */
  function TrainIndices(splits: seq<IndexSplit>): (r: seq<seq<nat>>)
    ensures |r| == |splits| && forall k :: 0 <= k < |splits| ==> r[k] == splits[k].train
  {
    seq(|splits|, k requires 0 <= k < |splits| => splits[k].train)
  }

  /** The validation (test) indices of every class. */
  function TestIndices(splits: seq<IndexSplit>): (r: seq<seq<nat>>)
    ensures |r| == |splits| && forall k :: 0 <= k < |splits| ==> r[k] == splits[k].test
  {
    seq(|splits|, k requires 0 <= k < |splits| => splits[k].test)
  }

  /** Every class's chosen indices fit that class's folder. */
  predicate PicksFit(listing: seq<Folder>, picks: seq<seq<nat>>)
  {
    |picks| == |listing| &&
    forall k :: 0 <= k < |listing| ==> InRange(picks[k], |listing[k].items|)
  }

  /** The record collected from the first `m` classes, class after class, each class
      contributing its samples at the indices `picks[k]`. */
  function Collect(root: string, listing: seq<Folder>, picks: seq<seq<nat>>, m: nat): (r: SampleSet)
    requires PicksFit(listing, picks) && m <= |listing|
    ensures Parallel(r)
  {
    if m == 0 then EMPTY
    else Append(Collect(root, listing, picks, m - 1),
                Pick(FolderSamples(root, listing[m - 1], m - 1), picks[m - 1]))
  }

  /** Sample `i` of `s` has a label naming a class, and its path is an entry of that
      class's folder under `root`. */
  predicate LabelsMatch(root: string, listing: seq<Folder>, s: SampleSet)
    requires Parallel(s)
  {
    forall i :: 0 <= i < |s.labels| ==>
      0 <= s.labels[i] < |listing| &&
      s.imgPaths[i].root == root &&
      s.imgPaths[i].folder == listing[s.labels[i]].name &&
      s.imgPaths[i].item in listing[s.labels[i]].items
  }

  /** The inner loop of the reading phase: every entry of `folder` is appended to the
      record `data_folder` with the folder's label. */
  method ReadFolder(root: string, folder: Folder, classIdx: int) returns (dataFolder: SampleSet)
    ensures dataFolder == FolderSamples(root, folder, classIdx)
  {
    dataFolder := EMPTY;
    var j := 0;
    while j < |folder.items|
      invariant 0 <= j <= |folder.items|
      invariant dataFolder == FolderSamples(root, Folder(folder.name, folder.items[..j]), classIdx)
    {
      var imgPath := ImagePath(root, folder.name, folder.items[j]);
      assert folder.items[..j + 1] == folder.items[..j] + [folder.items[j]];
      dataFolder := SampleSet(dataFolder.imgPaths + [imgPath], dataFolder.labels + [classIdx]);
      j := j + 1;
    }
    assert folder.items[..j] == folder.items;
  }

  /** One loop of the splitting phase: the samples of `dataFolder` at the positions
      `idx` are appended, in that order, to `acc`. */
  method AppendPicked(acc: SampleSet, dataFolder: SampleSet, idx: seq<nat>) returns (r: SampleSet)
    requires Parallel(dataFolder) && InRange(idx, |dataFolder.labels|)
    ensures r == Append(acc, Pick(dataFolder, idx))
  {
    r := acc;
    var t := 0;
    while t < |idx|
      invariant 0 <= t <= |idx|
      invariant r == Append(acc, Pick(dataFolder, idx[..t]))
    {
      var i := idx[t];
      assert idx[..t + 1] == idx[..t] + [i];
      r := SampleSet(r.imgPaths + [dataFolder.imgPaths[i]], r.labels + [dataFolder.labels[i]]);
      t := t + 1;
    }
    assert idx[..t] == idx;
  }

  /** The reading phase of data_split: one pass over the listing that appends each
      folder's name to `class_names` and stores its record in `data`, labelled with
      the running class index. */
  method ReadListing(root: string, listing: seq<Folder>)
    returns (data: map<string, SampleSet>, classNames: seq<string>)
    ensures classNames == Names(listing)
    ensures data.Keys == set j | 0 <= j < |listing| :: listing[j].name
    ensures forall j :: 0 <= j < |listing| ==>
      listing[j].name in data && (DistinctNames(listing) ==> data[listing[j].name] == FolderSamples(root, listing[j], j))
  {
    data := map[];
    classNames := [];
    var classIdx := -1;
    var k := 0;
    while k < |listing|
      invariant 0 <= k <= |listing|
      invariant classIdx == k - 1
      invariant classNames == Names(listing[..k])
      invariant data.Keys == set j | 0 <= j < k :: listing[j].name
      invariant forall j :: 0 <= j < k ==> listing[j].name in data
      invariant DistinctNames(listing) ==> forall j :: 0 <= j < k ==>
        data[listing[j].name] == FolderSamples(root, listing[j], j)
    {
      var folder := listing[k];
      classNames := classNames + [folder.name];
      classIdx := classIdx + 1;
      var dataFolder := ReadFolder(root, folder, classIdx);
      data := data[folder.name := dataFolder];
      k := k + 1;
    }
    assert listing[..k] == listing;
  }

  /** data_split(dir, split_ratio): the directory tree is given as `listing` and the
      result of each class's train_test_split call as `splits`, one per folder in
      listing order. */
  method SplitData(root: string, listing: seq<Folder>, splits: seq<IndexSplit>)
    returns (trainData: SampleSet, valData: SampleSet, classNames: seq<string>)
    requires DistinctNames(listing)
    requires PicksFit(listing, TrainIndices(splits)) && PicksFit(listing, TestIndices(splits))
    ensures classNames == Names(listing)
    ensures trainData == Collect(root, listing, TrainIndices(splits), |listing|)
    ensures valData == Collect(root, listing, TestIndices(splits), |listing|)
    ensures Parallel(trainData) && Parallel(valData)
    ensures LabelsMatch(root, listing, trainData) && LabelsMatch(root, listing, valData)
  {
    // First read every folder; `data` maps a folder name to its record.
    var data;
    data, classNames := ReadListing(root, listing);
    // Then split each class.
    trainData, valData := SplitClasses(root, listing, splits, data, classNames);
    CollectLabelsMatch(root, listing, TrainIndices(splits), |listing|);
    CollectLabelsMatch(root, listing, TestIndices(splits), |listing|);
  }

  /** The splitting phase of data_split: `data` is visited in insertion order, that of
      `classNames`, and each class's samples at its training and test indices are
      appended to the training and validation records. */
  method SplitClasses(root: string, listing: seq<Folder>, splits: seq<IndexSplit>,
                      data: map<string, SampleSet>, classNames: seq<string>)
    returns (trainData: SampleSet, valData: SampleSet)
    requires PicksFit(listing, TrainIndices(splits)) && PicksFit(listing, TestIndices(splits))
    requires classNames == Names(listing)
    requires forall j :: 0 <= j < |listing| ==>
      listing[j].name in data && data[listing[j].name] == FolderSamples(root, listing[j], j)
    ensures trainData == Collect(root, listing, TrainIndices(splits), |listing|)
    ensures valData == Collect(root, listing, TestIndices(splits), |listing|)
  {
    trainData, valData := EMPTY, EMPTY;
    var m := 0;
    while m < |classNames|
      invariant 0 <= m <= |listing|
      invariant trainData == Collect(root, listing, TrainIndices(splits), m)
      invariant valData == Collect(root, listing, TestIndices(splits), m)
    {
      assert classNames[m] == listing[m].name;
      var dataFolder := data[classNames[m]];
      assert dataFolder == FolderSamples(root, listing[m], m);
      assert TrainIndices(splits)[m] == splits[m].train && TestIndices(splits)[m] == splits[m].test;
      trainData := AppendPicked(trainData, dataFolder, splits[m].train);
      valData := AppendPicked(valData, dataFolder, splits[m].test);
      m := m + 1;
    }
  }

  /** Every collected sample carries the label of the folder it was read from. */
  lemma {:induction false} CollectLabelsMatch(root: string, listing: seq<Folder>, picks: seq<seq<nat>>, m: nat)
    requires PicksFit(listing, picks) && m <= |listing|
    ensures LabelsMatch(root, listing, Collect(root, listing, picks, m))
    ensures forall i :: 0 <= i < |Collect(root, listing, picks, m).labels| ==>
      Collect(root, listing, picks, m).labels[i] < m
    decreases m
  {
    if m > 0 {
      CollectLabelsMatch(root, listing, picks, m - 1);
      var before := Collect(root, listing, picks, m - 1);
      var f := FolderSamples(root, listing[m - 1], m - 1);
      var added := Pick(f, picks[m - 1]);
      var all := Collect(root, listing, picks, m);
      assert all == Append(before, added);
      forall i | 0 <= i < |all.labels|
        ensures 0 <= all.labels[i] < m
        ensures all.imgPaths[i].root == root
        ensures all.imgPaths[i].folder == listing[all.labels[i]].name
        ensures all.imgPaths[i].item in listing[all.labels[i]].items
      {
        if i >= |before.labels| {
          var t := i - |before.labels|;
          assert all.labels[i] == added.labels[t] == f.labels[picks[m - 1][t]];
          assert all.imgPaths[i] == added.imgPaths[t] == f.imgPaths[picks[m - 1][t]];
        }
      }
    }
  }

  /** The paths among `paths` whose parallel label in `labels` is `k`, in order. */
  function Labelled(paths: seq<ImagePath>, labels: seq<int>, k: int): seq<ImagePath>
    requires |paths| == |labels|
  {
    if labels == [] then []
    else (if labels[0] == k then [paths[0]] else []) + Labelled(paths[1..], labels[1..], k)
  }

  /** The paths of the samples of `s` that carry label `k`, in order. */
  function PathsLabelled(s: SampleSet, k: int): seq<ImagePath>
    requires Parallel(s)
  {
    Labelled(s.imgPaths, s.labels, k)
  }

  /** Selecting by label distributes over concatenation. */
  lemma {:induction false} LabelledAppend(p1: seq<ImagePath>, l1: seq<int>, p2: seq<ImagePath>, l2: seq<int>, k: int)
    requires |p1| == |l1| && |p2| == |l2|
    ensures Labelled(p1 + p2, l1 + l2, k) == Labelled(p1, l1, k) + Labelled(p2, l2, k)
    decreases |l1|
  {
    if l1 == [] {
      assert p1 + p2 == p2 && l1 + l2 == l2;
    } else {
      var head := if l1[0] == k then [p1[0]] else [];
      assert (p1 + p2)[1..] == p1[1..] + p2 && (l1 + l2)[1..] == l1[1..] + l2;
      assert (l1 + l2)[0] == l1[0] && (p1 + p2)[0] == p1[0];
      LabelledAppend(p1[1..], l1[1..], p2, l2, k);
      calc {
        Labelled(p1 + p2, l1 + l2, k);
        head + Labelled(p1[1..] + p2, l1[1..] + l2, k);
        head + (Labelled(p1[1..], l1[1..], k) + Labelled(p2, l2, k));
        (head + Labelled(p1[1..], l1[1..], k)) + Labelled(p2, l2, k);
      }
    }
  }

  /** Selecting by label distributes over appending records. */
  lemma PathsLabelledAppend(a: SampleSet, b: SampleSet, k: int)
    requires Parallel(a) && Parallel(b)
    ensures PathsLabelled(Append(a, b), k) == PathsLabelled(a, k) + PathsLabelled(b, k)
  {
    LabelledAppend(a.imgPaths, a.labels, b.imgPaths, b.labels, k);
  }

  /** When every label is `j`, selecting label `k` keeps every path if k == j and none
      otherwise. */
  lemma {:induction false} LabelledUniform(paths: seq<ImagePath>, labels: seq<int>, j: int, k: int)
    requires |paths| == |labels| && forall i :: 0 <= i < |labels| ==> labels[i] == j
    ensures Labelled(paths, labels, k) == if j == k then paths else []
    decreases |labels|
  {
    if labels != [] {
      LabelledUniform(paths[1..], labels[1..], j, k);
      assert [paths[0]] + paths[1..] == paths;
    }
  }

  /** The samples labelled `k` in a collected record are exactly the ones picked from
      folder `k`, in the order of its indices, once class `k` has been visited. */
  lemma {:induction false} CollectOfClass(root: string, listing: seq<Folder>, picks: seq<seq<nat>>, m: nat, k: nat)
    requires PicksFit(listing, picks) && k < m <= |listing|
    ensures PathsLabelled(Collect(root, listing, picks, m), k) == Gather(FolderPaths(root, listing[k]), picks[k])
    decreases m
  {
    CollectStep(root, listing, picks, m, k);
    if k == m - 1 {
      CollectOtherClass(root, listing, picks, m - 1, k);
      assert PathsLabelled(Collect(root, listing, picks, m - 1), k) == [];
    } else {
      CollectOfClass(root, listing, picks, m - 1, k);
    }
  }

  /** A collected record holds no sample with a label that is not yet visited. */
  lemma {:induction false} CollectOtherClass(root: string, listing: seq<Folder>, picks: seq<seq<nat>>, m: nat, k: int)
    requires PicksFit(listing, picks) && m <= |listing| && !(0 <= k < m)
    ensures PathsLabelled(Collect(root, listing, picks, m), k) == []
    decreases m
  {
    if m > 0 {
      CollectStep(root, listing, picks, m, k);
      CollectOtherClass(root, listing, picks, m - 1, k);
    }
  }

  /** What the class with label m - 1 adds to the samples labelled `k`. */
  lemma CollectStep(root: string, listing: seq<Folder>, picks: seq<seq<nat>>, m: nat, k: int)
    requires PicksFit(listing, picks) && 0 < m <= |listing|
    ensures PathsLabelled(Collect(root, listing, picks, m), k) ==
      PathsLabelled(Collect(root, listing, picks, m - 1), k) +
      if k == m - 1 then Gather(FolderPaths(root, listing[m - 1]), picks[m - 1]) else []
  {
    var before := Collect(root, listing, picks, m - 1);
    var added := Pick(FolderSamples(root, listing[m - 1], m - 1), picks[m - 1]);
    assert Collect(root, listing, picks, m) == Append(before, added);
    PathsLabelledAppend(before, added, k);
    PickedFromFolder(root, listing[m - 1], m - 1, picks[m - 1], k);
  }

  /** The samples picked from the folder with label `j` are all labelled `j`, so
      selecting label `k` from them keeps all of them when j == k and none otherwise. */
  lemma PickedFromFolder(root: string, f: Folder, j: int, idx: seq<nat>, k: int)
    requires InRange(idx, |f.items|)
    ensures PathsLabelled(Pick(FolderSamples(root, f, j), idx), k) ==
      if j == k then Gather(FolderPaths(root, f), idx) else []
  {
    var s := FolderSamples(root, f, j);
    var added := Pick(s, idx);
    assert forall t :: 0 <= t < |added.labels| ==> added.labels[t] == s.labels[idx[t]] == j;
    LabelledUniform(added.imgPaths, added.labels, j, k);
  }

  /** Gathering at concatenated positions concatenates the gathered elements. */
  lemma GatherAppend<T>(p: seq<T>, s1: seq<nat>, s2: seq<nat>)
    requires InRange(s1, |p|) && InRange(s2, |p|)
    ensures InRange(s1 + s2, |p|)
    ensures Gather(p, s1 + s2) == Gather(p, s1) + Gather(p, s2)
  {
    assert InRange(s1 + s2, |p|) by {
      forall t | 0 <= t < |s1 + s2| ensures (s1 + s2)[t] < |p| {
        if t >= |s1| { assert (s1 + s2)[t] == s2[t - |s1|]; }
      }
    }
  }

  /** The positions left when one occurrence of `x` is taken out of `left + [x] + right`. */
  lemma MultisetSplice(left: seq<nat>, x: nat, right: seq<nat>)
    ensures multiset(left + right) == multiset(left + [x] + right) - multiset{x}
  {
    assert multiset(left + [x] + right) == multiset(left) + multiset{x} + multiset(right);
    assert multiset(left + right) == multiset(left) + multiset(right);
  }

  /** Taking the occurrence of `x` out of the positions `s == left + [x] + right` takes
      one `p[x]` out of what gathering yields. */
  lemma GatherSplice<T>(p: seq<T>, s: seq<nat>, left: seq<nat>, x: nat, right: seq<nat>)
    requires s == left + [x] + right && InRange(s, |p|)
    ensures x < |p| && InRange(left + right, |p|)
    ensures multiset(left + right) == multiset(s) - multiset{x}
    ensures multiset(Gather(p, s)) == multiset{p[x]} + multiset(Gather(p, left + right))
  {
    assert x == s[|left|];
    assert InRange(left, |p|) && InRange(right, |p|) by {
      forall t | 0 <= t < |left| ensures left[t] < |p| { assert left[t] == s[t]; }
      forall t | 0 <= t < |right| ensures right[t] < |p| { assert right[t] == s[|left| + 1 + t]; }
    }
    MultisetSplice(left, x, right);
    GatherAppend(p, left, [x]);
    GatherAppend(p, left + [x], right);
    GatherAppend(p, left, right);
  }

  /** A position that occurs in `s` splits it around one of its occurrences. */
  lemma Occurrence(s: seq<nat>, x: nat) returns (left: seq<nat>, right: seq<nat>)
    requires x in multiset(s)
    ensures s == left + [x] + right
  {
    var j :| 0 <= j < |s| && s[j] == x;
    left, right := s[..j], s[j + 1..];
  }

  /** Which elements gathering yields, counted with multiplicity, depends only on the
      multiset of positions. */
  lemma {:induction false} GatherPermutation<T>(p: seq<T>, s1: seq<nat>, s2: seq<nat>)
    requires InRange(s1, |p|) && InRange(s2, |p|) && multiset(s1) == multiset(s2)
    ensures multiset(Gather(p, s1)) == multiset(Gather(p, s2))
    decreases |s1|
  {
    if s1 == [] {
      assert |s2| == |multiset(s2)| == 0;
    } else {
      var x := s1[0];
      assert s1 == [] + [x] + s1[1..];
      GatherSplice(p, s1, [], x, s1[1..]);
      var left, right := Occurrence(s2, x);
      GatherSplice(p, s2, left, x, right);
      GatherPermutation(p, [] + s1[1..], left + right);
    }
  }

  /** Gathering every position in order gives the sequence back. */
  lemma GatherRange<T>(p: seq<T>)
    ensures InRange(Range(|p|), |p|) && Gather(p, Range(|p|)) == p
  {
  }

  /** An index split of a folder sends each of its elements to exactly one side. */
  lemma IndexSplitCovers<T>(p: seq<T>, s: IndexSplit)
    requires IsIndexSplit(s, |p|)
    ensures InRange(s.train, |p|) && InRange(s.test, |p|)
    ensures multiset(Gather(p, s.train)) + multiset(Gather(p, s.test)) == multiset(p)
  {
    IndexSplitInRange(s, |p|);
    GatherAppend(p, s.train, s.test);
    GatherRange(p);
    GatherPermutation(p, s.train + s.test, Range(|p|));
  }

  /** The indices of an index split are all positions of the folder. */
  lemma IndexSplitInRange(s: IndexSplit, n: nat)
    requires IsIndexSplit(s, n)
    ensures InRange(s.train, n) && InRange(s.test, n)
    ensures |s.train| + |s.test| == n
  {
    forall t | 0 <= t < |s.train| ensures s.train[t] < n {
      assert s.train[t] in multiset(Range(n));
    }
    forall t | 0 <= t < |s.test| ensures s.test[t] < n {
      assert s.test[t] in multiset(Range(n));
    }
    assert |multiset(s.train) + multiset(s.test)| == |multiset(Range(n))|;
  }

  /** When every class's split is an index split, the indices fit the folders. */
  lemma IndexSplitsFit(listing: seq<Folder>, splits: seq<IndexSplit>)
    requires |splits| == |listing|
    requires forall k :: 0 <= k < |listing| ==> IsIndexSplit(splits[k], |listing[k].items|)
    ensures PicksFit(listing, TrainIndices(splits)) && PicksFit(listing, TestIndices(splits))
  {
    forall k | 0 <= k < |listing|
      ensures InRange(splits[k].train, |listing[k].items|) && InRange(splits[k].test, |listing[k].items|)
    {
      IndexSplitInRange(splits[k], |listing[k].items|);
    }
  }

  /** Per class, the training and validation samples together are exactly the entries
      of that class's folder, each once, when every split partitions its class's
      indices. */
  lemma PerClassPartition(root: string, listing: seq<Folder>, splits: seq<IndexSplit>, k: nat)
    requires |splits| == |listing| && k < |listing|
    requires forall c :: 0 <= c < |listing| ==> IsIndexSplit(splits[c], |listing[c].items|)
    ensures PicksFit(listing, TrainIndices(splits)) && PicksFit(listing, TestIndices(splits))
    ensures
      var train := Collect(root, listing, TrainIndices(splits), |listing|);
      var val := Collect(root, listing, TestIndices(splits), |listing|);
      multiset(PathsLabelled(train, k)) + multiset(PathsLabelled(val, k))
        == multiset(FolderPaths(root, listing[k])) &&
      |PathsLabelled(train, k)| + |PathsLabelled(val, k)| == |listing[k].items|
  {
    IndexSplitsFit(listing, splits);
    CollectOfClass(root, listing, TrainIndices(splits), |listing|, k);
    CollectOfClass(root, listing, TestIndices(splits), |listing|, k);
    IndexSplitCovers(FolderPaths(root, listing[k]), splits[k]);
    IndexSplitInRange(splits[k], |listing[k].items|);
  }
}
