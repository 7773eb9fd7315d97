# Data preparation of the mushroom classifier, in Dafny

This project models the data-preparation core of `utils/data_loader.py` in the
Mushrooms_Classification training pipeline. The core has three parts, and each is a
module here:

- `Batching` (`batching.dfy`) models `custom_loader`, the inference batch chunker. Its
  `while` loop moves an index `i` forward by `batch_size` while `i + batch_size < len(data)`.
  After the loop it always appends the tail `data[i:]`. The method `CustomLoader` keeps
  that loop. It is proved equal to the recursive reference definition `Chunks`. The
  lemmas about `Chunks` establish four facts. The batches concatenate back to the input.
  Every batch but the last is full. The last batch holds 1 to `batch_size` items, and an
  empty input gives one empty batch. The batch count is ceil(n / batch_size).
- `DataSplit` (`data_split.dfy`) models `data_split`, the dataset splitter. It takes the
  directory tree as a value: one `Folder` per entry of `os.listdir(dir)`, holding that
  folder's own listing. It also takes what `train_test_split` returned for each class, as
  one `IndexSplit` per folder. The method `SplitData` keeps the source's loops, with the
  reading loop in `ReadListing`, the splitting loop in `SplitClasses` and each inner
  loop in a method of its own. The first
  loop fills the dictionary `data` that maps a folder name to its record. The second loop
  copies each class's picked samples into the train and validation records. The method
  is proved to produce `Collect(...)`. It also proves that both records have parallel
  lists, that `class_names` lists the folders in order, and that every sample's label
  names the folder its path came from. `PerClassPartition` proves the per-class
  partition: if every split partitions its class's indices, then the train and
  validation samples with label `k` together are exactly folder `k`'s entries, each once.
- `ClassNames` (`class_names.dfy`) models `write_file_classnames` and
  `read_file_classnames` as transforms on text. `WriteClassNames` is `','.join(names)`.
  `ReadClassNames` applies the text-mode newline translation, keeps the first line
  (`readline`), splits it at every comma and strips each piece. The model proves four
  things. Reading always yields at least one name, and each name is stripped and free
  of commas. Writing and then reading gives the names back when the list is non-empty
  and every name has no comma, no line break and no whitespace at either end. An empty
  list reads back as `[""]`. Only the first line of a file is read.

Two behaviours of the code are worth stating:

- An empty class folder: `train_test_split(range(0), ...)` (utils/data_loader.py:60-61)
  raises `ValueError` in scikit-learn. Here the split is an input, so an empty folder
  with an empty split gives zero samples.
- Every name `os.listdir(folder_path)` yields becomes a sample, subfolders included
  (utils/data_loader.py:44-49).

## Model

| member | source | states |
|---|---|---|
| `Batching.CustomLoader` | utils/data_loader.py:118-145 | the loop, which takes `batch_size` items while more than `batch_size` remain and then appends the tail, returns exactly `Chunks(data, batch_size)` |
| `Batching.ChunksShape` | utils/data_loader.py:128-145 | what `custom_loader` returns: the batches concatenate to `data`; every batch but the last has `batch_size` items; the last batch has 1 to `batch_size` items for non-empty data; empty data gives `[[]]`; the count is ceil(n / batch_size) |
| `Batching.ChunksFlatten` | utils/data_loader.py:128-145 | concatenating the batches in order gives back the input exactly, for every length including 0 |
| `Batching.ChunksFullBatches` | utils/data_loader.py:132-137 | every batch except the last holds exactly `batch_size` items |
| `Batching.ChunksLastBatch` | utils/data_loader.py:131-143 | there is always at least one batch; for non-empty data the last batch has 1 to `batch_size` items; empty data gives exactly one empty batch |
| `Batching.ChunksCount` | utils/data_loader.py:132-143 | the number of batches `c` satisfies `(c - 1) * b < n <= c * b`, so it is ceil(n / b), for n > 0; it is 1 for n = 0 |
| `Batching.ExactMultipleEndsFull` | utils/data_loader.py:132-143 | when n = m * b with m >= 1, there are exactly m batches and the last is full, so no empty batch trails |
| `Batching.FiveByTwo` | utils/data_loader.py:132-143 | chunking [1,2,3,4,5] by 2 gives [[1,2],[3,4],[5]] |
| `Batching.FourByTwo` | utils/data_loader.py:132-143 | chunking [1,2,3,4] by 2 gives [[1,2],[3,4]] |
| `DataSplit.SplitData` | utils/data_loader.py:11-70 | returns `class_names` equal to the folder names in listing order; returns train and validation records equal to the class-by-class collection of the picked samples; both records have parallel lists; every sample's label lies in `[0, |class_names|)`, its path lies under the root, in folder `class_names[label]`, and names an entry of that folder |
| `DataSplit.ReadListing` | utils/data_loader.py:29-49 | the reading loop makes `class_names` the folder names in listing order; the keys of `data` are exactly the folder names, so walking `data` visits the classes of `class_names`; for distinct names, the record under folder j's name holds that folder's entries labelled j |
| `DataSplit.SplitClasses` | utils/data_loader.py:51-68 | given `data` holding folder j's record under its name and `class_names` in listing order, the splitting loop returns train and validation records equal to the class-by-class collection of the samples at each class's training and test indices |
| `DataSplit.ReadFolder` | utils/data_loader.py:44-49 | the inner reading loop builds a record holding every entry of the folder, joined to its path, in listing order, each labelled with the folder's class index |
| `DataSplit.AppendPicked` | utils/data_loader.py:62-68 | a copy loop appends the folder's samples at the given indices, path and label together, in index order, after what the record already held |
| `DataSplit.Names` | utils/data_loader.py:36-38 | `class_names[k]` is the name of the k-th listed folder |
| `DataSplit.FolderSamples` | utils/data_loader.py:41-49 | the record of the folder with label k has parallel lists; path j is the folder's j-th entry; every label is k |
| `DataSplit.Collect` | utils/data_loader.py:52-68 | the record collected over the first m classes always has parallel lists |
| `DataSplit.CollectLabelsMatch` | utils/data_loader.py:31-68 | in a collected record, every label is a class index below m, and the path beside it belongs to that class's folder |
| `DataSplit.CollectOfClass` | utils/data_loader.py:56-68 | once class k has been visited, the samples labelled k in a collected record are exactly the samples picked from folder k, in the order of its indices |
| `DataSplit.CollectOtherClass` | utils/data_loader.py:56-68 | a collected record holds no sample whose label is a class not yet visited (or no class at all) |
| `DataSplit.PerClassPartition` | utils/data_loader.py:56-68 | if every split partitions `0..n-1` of its class, then per class k the train and validation paths labelled k together equal folder k's entry paths as a multiset (each once), and their counts sum to the folder's size |
| `DataSplit.IndexSplitCovers` | utils/data_loader.py:60-68 | a partition of a folder's indices sends each of its elements to exactly one of the two sides |
| `DataSplit.IndexSplitInRange` | utils/data_loader.py:60-61 | the indices of a partition are valid positions, and the train and test counts sum to n |
| `DataSplit.IndexSplitsFit` | utils/data_loader.py:60-61 | when every class's split is a partition, every picked index is in range, so the copy loops never index past a folder |
| `ClassNames.TrimStart` | utils/data_loader.py:160 | lstrip never lengthens its input, and its result does not start with whitespace |
| `ClassNames.TrimEnd` | utils/data_loader.py:160 | rstrip never lengthens its input, and its result does not end with whitespace |
| `ClassNames.TrimStartRemovesSpace` | utils/data_loader.py:160 | lstrip keeps a suffix of its input and removes only whitespace |
| `ClassNames.TrimEndRemovesSpace` | utils/data_loader.py:160 | rstrip keeps a prefix of its input and removes only whitespace |
| `ClassNames.Strip` | utils/data_loader.py:160 | the stripped name has no whitespace at either end |
| `ClassNames.StripIsSlice` | utils/data_loader.py:160 | the stripped name is a slice of the piece with only whitespace cut away on each side |
| `ClassNames.StripFixedPoint` | utils/data_loader.py:160 | stripping leaves a string unchanged exactly when neither end of it is whitespace |
| `ClassNames.Split` | utils/data_loader.py:160 | `split(',')` yields at least one piece, and no piece holds a comma |
| `ClassNames.JoinSplit` | utils/data_loader.py:160 | joining the split pieces with commas gives back the line |
| `ClassNames.SplitJoin` | utils/data_loader.py:175 | splitting comma-joined names gives them back when there is at least one name and no name holds a comma |
| `ClassNames.UniversalNewlines` | utils/data_loader.py:157-158 | the text-mode translation leaves no carriage return, and it changes nothing in a text without one |
| `ClassNames.FirstLine` | utils/data_loader.py:158 | `readline` returns a prefix of the text; with a line break, the prefix ends at the first one; without a line break, it is the whole text |
| `ClassNames.WriteClassNames` | utils/data_loader.py:165-178 | no names give an empty text; otherwise splitting the text at commas gives the names back when none holds a comma |
| `ClassNames.ReadClassNames` | utils/data_loader.py:148-162 | reading always yields at least one name, and every name has no whitespace at either end and no comma |
| `ClassNames.StripAll` | utils/data_loader.py:160 | each output name is the stripped piece at the same position |
| `ClassNames.RoundTrip` | utils/data_loader.py:157-175 | reading back the written text gives the same names, for a non-empty list of names with no comma, no line break and no whitespace at either end |
| `ClassNames.EmptyListReadsBackAsOneEmptyName` | utils/data_loader.py:157-175 | writing no names and reading back gives one empty name, not an empty list |
| `ClassNames.ReadsFirstLineOnly` | utils/data_loader.py:157-160 | text after the first line break is never read: a line plus a newline plus any text reads like the line alone |

## Left out

- File access in `read_file_classnames` and `write_file_classnames` (`open`, `readline`, `write`, and the file path built by `os.path.join`). File contents are passed as strings. Text decoding, and the translation of `'\n'` to the platform line separator on writing, are not modelled.
- Directory reading in `data_split` (`os.listdir`, `os.path.join`). The listing is an input in the order the filesystem yields it. A path is kept as its parts `root`, `folder` and `item`, not as a joined string. Filesystem errors are not modelled.
- How `train_test_split` picks its indices: randomisation, `test_size = 1 - split_ratio` with rounding, and the errors it raises for empty or tiny classes. This is a foreign numerical-library call, so its result is an input, and `split_ratio` has no other effect. `SplitData` requires only that the indices are in range, which the source needs to avoid an index error. The partition property is the hypothesis of `PerClassPartition`.
- `SplitData`: the folder names are required to be distinct, which `os.listdir` guarantees. On that input the dictionary `data` visits its keys in insertion order, which is the order of `class_names`. The source fills `data[folder]` through an alias `data_folder`. The model fills a local record and stores it once the folder is read, which gives the same final dictionary.
- `ReadListing`: for a listing that repeats a folder name, the contract says only that the name is a key of `data`, not which record it keeps. `os.listdir` does not repeat names.
- `CustomLoader`: `batch_size >= 1` is a precondition. For `batch_size <= 0` the source loop does not terminate, or slices wrongly.
- `CustomDataset`, `filenames_to_tensor` and the `ImageFile.LOAD_TRUNCATED_IMAGES` flag are thin wrappers over image and tensor libraries. `tools/test.py` is a training script with no logic of its own.
