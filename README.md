# process_tools in Dafny

A model of the bookkeeping at the heart of `process_tools`. This is a Python 2
toolkit that runs batches of function calls, caches their results on disk and
reassembles per-job results into nested dictionary trees. Hashing, pickling,
shelve, HDF5 and process pools appear as abstract maps and function parameters.
What the model states is the logic around them: which files exist under which
names, what each record holds, which calls run, and how trees are built,
flattened and stacked.

Modules (one per source file, plus shared foundations):

- `PyValues`: the Python values that are passed around, i.e. call arguments, shelve records, nested dicts and numpy arrays (dtype, shape, cells). It also defines keyword lists in dictionary order and the exceptions.
- `Strings`: `split`/`join`, `re.sub('/+', '/', s)`, `rfind`, `os.path.splitext`, and the ordering of keyword names.
- `Storage`: the file system as a `Directory` object. It holds a map from slash-collapsed names to contents (marker, text, shelve, HDF5) and a set of sub-directories. `rename`, `remove`, `mkdir` and `glob` are its operations.
- `CallIdentity`: the call identifier `sha224(pickle((funcname, args, sorted kwargs)))`, with the digest as a parameter, and the cache file names.
- `TreePaths`, `TreeTools`, `TreeAggregate` (`process_tools/tree_tools.py`): `walk`, `set_leaf`, `flatten_dict`/`unflatten_dict` and `aggregate_tree`.
- `Hdf5`, `H5pyTree` (`process_tools/h5py_tree.py`): an HDF5 file as a tree of groups and datasets, writing a tree under a path prefix, and reading a group back.
- `FileTools` (`file_tools.py`): the group-by-group HDF5 writer, `mkparents`, `abbreviate_file_path`, `extract_rootdir`, `repl_bracketed_env` and `print_multicolumn`'s layout.
- `Utils` (`utils.py`): the timing decorators, `short_repr`, `print_call` and `function_wrapper`.
- `Memoize`, `MemoizeBatch`, `PersistentMemoize`: the in-memory cache, the generate/read batch cache, and the busy/done marker protocol of the shelve cache.
- `ProcessDaemon` (`process_tools/process_daemon.py`), `ProcessDaemonLegacy` (`process_daemon.py`): the job file life cycle `.job → .queue → .run → .done (+ .log)`, the worker loop over its queue, and one pass of the daemon's kill-file check and directory scan.
- `ScatterGather` (`process_tools/scatter_gather.py`), `ScatterGatherLegacy` (`scatter_gather.py`): writing job files for keyed calls, and merging finished jobs into an HDF5 file under their tags.
- `AggregateOutputs` (`aggregate_outputs.py`): stacking keyed calls, and writing their result pairs into a fresh shelve.
- `PersistentClass` (both `persistent_class.py` files): saving a subset of an instance's attributes to a shelve and loading it back.

Where the older top-level copy of a file repeats the newer one's behaviour, one member models both, and the table cites the newer copy. This is the case for `process_daemon.py:38-79` (the worker loop and job processing: `ProcessDaemon.WorkerRun`, `ProcessDaemon.ProcessJob`) and `persistent_class.py:28-82` (`Persistent.ShelveVariables`, `Persistent.LoadVariables`, `Persistent.SetNames`).

Classes model the objects whose fields the source updates in place: `Memoized`, `Batch`, `Scatterer`, `Aggregator`, `Persistent`, `H5File` and `Directory`. Their methods are proved against specification functions of the old state. The pure parts are functions, with lemmas about them.

## Model

| member | source | states |
|---|---|---|
| TreeTools.WalkSound | process_tools/tree_tools.py:4-30 | every dict `walk` yields sits in the tree at a path whose "/k1/k2/" rendering is the yielded path |
| TreeTools.WalkComplete | process_tools/tree_tools.py:17-30 | every nested dict of the tree is yielded by `walk` |
| TreeTools.FlattenDict | process_tools/tree_tools.py:51-74 | the flat dictionary holds exactly the array items of the walked dicts, each under the walked path plus its key; non-array items are dropped |
| TreeTools.StoreArrayItems | process_tools/tree_tools.py:69-72 | the outer loop over the walked dicts stores every array item of each and nothing else |
| TreeTools.StoreDictItems | process_tools/tree_tools.py:70-72 | the inner loop stores an item exactly when it is an array |
| TreeTools.FlatSoundIsSpec | process_tools/tree_tools.py:51-74 | for a tree whose keys have no "/", the flat dictionary is its array leaves keyed by "/"-joined path, independently of walk order |
| TreeTools.UnflattenDict | process_tools/tree_tools.py:77-94 | a key with no component after the leading "/" fails; a valid flat dictionary gives the clean tree whose leaves are exactly its entries, whatever the iteration order |
| TreeTools.UnflattenStep | process_tools/tree_tools.py:89-92 | one `set_leaf` of the loop adds exactly that entry's leaf and keeps the tree clean |
| TreeTools.CompMapFlatten | process_tools/tree_tools.py:51-94 | the leaves described by the flattening of a tree are the tree's own leaves |
| TreeTools.UnflattenFlatten | process_tools/tree_tools.py:51-94 | unflattening the flattening of a clean tree without "/" in its keys gives the tree back |
| TreePaths.SetLeaf | process_tools/tree_tools.py:34-48 | an empty path is an IndexError; the leaf can be set exactly when every dict on the way is a dict or missing; below a non-dict, one key left is an item assignment with a string index (ValueError on an ndarray, as numpy finds no such field; TypeError on any other value) and more keys an AttributeError (`has_key`) |
| TreePaths.SetLeafAt | process_tools/tree_tools.py:34-48 | after `set_leaf`, the path holds the leaf, its prefixes are dicts leading to it, and every unrelated path keeps its value |
| TreePaths.SetLeafClean | process_tools/tree_tools.py:34-48 | setting an array at a path unrelated to every existing array keeps a clean tree clean and adds exactly that leaf |
| TreePaths.InsertAllLeaves | process_tools/tree_tools.py:88-94 | inserting distinct leaf paths one after the other gives a clean tree whose leaves are exactly those, in any order |
| TreePaths.CleanUnique | process_tools/tree_tools.py:77-94 | two clean trees with the same arrays at the same paths are equal, so the rebuilt tree does not depend on the insertion order |
| TreePaths.BuildLeaves | process_tools/tree_tools.py:77-94 | the tree built from a leaf map is clean and has exactly those leaves |
| TreePaths.BuildOfLeaves | process_tools/tree_tools.py:77-94 | rebuilding a clean tree from its leaves gives the tree back |
| TreeAggregate.ZeroStack | process_tools/tree_tools.py:128-131 | `numpy.zeros((n,) + shape, dtype)`: that dtype and shape, every slice zero |
| TreeAggregate.StackedStep | process_tools/tree_tools.py:137 | writing entry j's array into slice j moves the stacked array one entry on and leaves the other slices alone |
| TreeAggregate.AllocateZeros | process_tools/tree_tools.py:124-133 | a zero array of shape `(N,) + shape` for every path of the first entry and no other |
| TreeAggregate.FillEntry | process_tools/tree_tools.py:136-137 | slice `index` of every allocated array is set from the entry; a path not allocated is a KeyError, a slice of another shape a ValueError |
| TreeAggregate.FillAll | process_tools/tree_tools.py:135-137 | all entries are written slice by slice; the first entry that does not fit stops the loop with its error |
| TreeAggregate.FlattenAll | process_tools/tree_tools.py:119-122 | `flat_list` holds the flattening of every tree, in order |
| TreeAggregate.AggregateLeaves | process_tools/tree_tools.py:135-140 | the fully stacked flat dictionary unflattens to the first tree's leaves stacked over all trees |
| TreeAggregate.AggregateTree | process_tools/tree_tools.py:97-140 | an empty list is an IndexError; for trees without "/" in keys, it succeeds exactly when every tree's leaves sit at the first tree's leaves with the same shapes, giving the clean tree of stacked leaves, and otherwise fails with the error of a misfit tree |
| TreeAggregate.StackLeafShaped | process_tools/tree_tools.py:97-140 | each aggregated leaf has shape `(N,) + shape` of the first tree's leaf and, for compatible trees, its cells conform to it |
| H5pyTree.TraverseDataDict | process_tools/h5py_tree.py:9-25 | every array item is stored under the flat name `"/".join(path + keys)`, every dict is walked with its key appended, anything else is skipped; existing datasets are kept, a clean file stays clean, the new datasets are exactly the tree's leaves under the prefix, and the walk succeeds when those places are vacant |
| H5pyTree.WriteItem | process_tools/h5py_tree.py:12-25 | one item: an array stored at its place, a dict walked, anything else skipped, with the same keep/clean/placed guarantees |
| H5pyTree.ConvertNumpytreeHdf5 | process_tools/h5py_tree.py:44-73 | the file is opened for appending and the tree written under `path.split("/")`: old datasets kept, new datasets exactly the tree's leaves under the prefix, success when that place is vacant |
| H5pyTree.TraverseHd5Dict | process_tools/h5py_tree.py:76-85 | reading a group gives back exactly the group's contents, datasets as values and sub-groups as dicts |
| H5pyTree.GroupAt | process_tools/h5py_tree.py:119 | `file[name]` is a group exactly when a group stands at that path; a missing name is a KeyError |
| H5pyTree.ConvertHdf5DictTree | process_tools/h5py_tree.py:103-129 | the dictionary of the group at the path, KeyError exactly when nothing is there |
| H5pyTree.ReadBack | process_tools/h5py_tree.py:44-129 | a file written from empty whose datasets are exactly the tree's leaves under `w` holds, at `w`, the clean tree of those leaves |
| H5pyTree.ReadBackEmpty | process_tools/h5py_tree.py:44-73 | a tree without arrays writes nothing: the file stays empty |
| H5pyTree.WriteThenRead | process_tools/h5py_tree.py:107-124 | the doctest round trip: a tree with arrays reads back as its array-only subtree (itself when clean); a tree without arrays leaves no group, a KeyError |
| Hdf5.H5PathJoin | process_tools/h5py_tree.py:16 | `"/".join(parts)` names exactly the non-empty parts when no part holds a slash |
| Hdf5.Graft | process_tools/h5py_tree.py:17 | storing at a path creates the missing groups on the way and puts the value at that path |
| Hdf5.GraftGet | process_tools/h5py_tree.py:17 | after storing at a path, that path holds the stored value |
| Hdf5.SetLeafIsGraft | process_tools/tree_tools.py:34-48 | on a traversable path, `set_leaf` and h5py's creation of intermediate groups agree |
| Hdf5.StoreEffect | process_tools/h5py_tree.py:17 | creating a dataset at a creatable path adds exactly that dataset, every other path keeps its array, and a clean file stays clean |
| Hdf5.H5File.Store | process_tools/h5py_tree.py:17 | `group[name] = array` creates a new dataset; an existing name, the group itself or a path through a dataset is refused |
| FileTools.PruneArrays | file_tools.py:16-27 | the tree the writer records keeps every array where it was and adds none |
| FileTools.PruneGroups | file_tools.py:16-27 | every dict becomes a group where it was, and only arrays and groups remain |
| FileTools.AddChild | file_tools.py:21-25 | adding a new child to a group that lacks the key succeeds and gives the group holding exactly one more child |
| FileTools.TraverseDataDict | file_tools.py:16-27 | with plain keys, writing into an empty group succeeds and leaves the group holding the pruned tree |
| FileTools.WriteItem | file_tools.py:17-27 | an array becomes a dataset named by its key, a dict a new group filled recursively, anything else is skipped; into a group lacking the key a plain item is written |
| FileTools.ConvertNumpytreeHdf5 | file_tools.py:46-72 | a new file written from the root group: with plain keys it succeeds and holds exactly the arrays and (possibly empty) dicts of the tree |
| FileTools.MkparentsDirSpec | file_tools.py:116-121 | a directory is made exactly when a slash stands after the first character, and it is the path up to the last slash |
| FileTools.AbbreviateSpec | file_tools.py:124-136 | the abbreviation is a suffix of the name; a name without a slash is kept, otherwise it is the last two components joined by a slash |
| FileTools.RootdirSpec | file_tools.py:220-228 | the result always ends with a slash, a bare name gives "./", and otherwise the name is the result followed by its last component, except directly under "/" |
| FileTools.RootdirAtRoot | file_tools.py:224-227 | as written, a file directly under "/" such as "/data.txt" gets "./", which does not lead back to the name |
| FileTools.RootdirFixedSpec | file_tools.py:220-228 | the corrected root directory always ends with a slash, gives "./" for a bare name, and otherwise the name is it followed by its last component |
| FileTools.Bracketless | file_tools.py:181 | the translation keeps the length and leaves no closing bracket |
| FileTools.ReplBracketedEnv | file_tools.py:174-192 | succeeds exactly when every all-capital fragment names a set variable (otherwise the exit of `get_env`); the result joins the fragments with those replaced |
| FileTools.ConcatSplit | file_tools.py:182-190 | joining the fragments of the split gives the text with its brackets removed |
| FileTools.ReplPlainText | file_tools.py:174-192 | text without all-capital fragments comes back with only its brackets removed |
| FileTools.MinLen | file_tools.py:100 | `zip(*args)` yields as many rows as the shortest column |
| FileTools.MulticolumnDirSpec | file_tools.py:89-93 | a bare name makes no directory; a directory made is the name minus its last component |
| FileTools.RowFormatConversions | file_tools.py:96 | with one conversion in the format, the row format has one conversion per column |
| FileTools.PrintMulticolumn | file_tools.py:75-103 | the output name and format default to "multicolumns.dat" and "%10.15g" unless given, the directory to make, the row format, and one row per index up to the shortest column holding each column's value |
| FileTools.StrKw | file_tools.py:79-86 | a keyword not given takes its default; a given string is the value; a given non-string is the caller's error (AttributeError for `outfile`, whose `split` is called, TypeError for `format`) |
| Utils.LogTiming | utils.py:23-37 | the wrapper returns the wrapped function's result, or raises its exception, for every call, and carries its name and docstring |
| Utils.LogTimingFunc | utils.py:5-19 | the decorator it returns gives, for every function, a wrapper with the same results, name and docstring |
| Utils.ShortReprAsWritten | utils.py:40-50 | as written, any true `maxlen` raises NameError (the misspelt `rep_rout`); without one the repr is returned |
| Utils.ShortRepr | utils.py:40-50 | as intended: the repr, or "BIG_ARG" exactly when a true maximum is given and the repr is longer; the output then never exceeds a maximum of at least seven |
| Utils.KwItems | utils.py:59 | one `k=repr(v)` item per keyword argument, in the dictionary's order |
| Utils.ArgItems | utils.py:61 | one repr per positional argument, in order |
| Utils.PrintCall | utils.py:54-68 | the returned file name is the batch's result file `directory/signature.shelve` with runs of "/" collapsed, and the printed line starts with `funcname(` and ends with `) -> filename` |
| Utils.KwStringAppend | utils.py:59-60 | one more keyword argument adds exactly one `, k=repr` item at the end of the keyword text |
| Utils.GetAttr | utils.py:89-91 | `getattr` succeeds exactly on a module that has the name, otherwise AttributeError |
| Utils.WalkModulePath | utils.py:87-89 | walking a module path that imports succeeds and ends at a module |
| Utils.WalkAppend | utils.py:88-91 | walking a dotted path is walking its front and then taking its last name |
| Utils.ResolveDotted | utils.py:83-93 | once the module path imports, the function is the last name's attribute of the innermost module, so only AttributeError can remain |
| Utils.LookupFunction | utils.py:82-93 | the loop rebinding `mod` through the middle components finds exactly what the dotted-name resolution denotes: ImportError, AttributeError, KeyError for a missing global, or the object |
| Utils.SignatureRecord | utils.py:99-106 | the saved record has exactly the keys signature, filename, funcname, args, kwargs and result, agreeing with the batch record, with the identifier under "signature" |
| Utils.FunctionWrapper | utils.py:71-108 | a failed lookup raises its error and a non-function a TypeError, writing nothing; a call that raises propagates its exception and writes nothing; otherwise the record of the call's result is saved in the file `print_call` names and the identifier returned |
| Memoize.Memoized.Call | memoize.py:14-24 | a hit returns the stored value without calling the function; a miss calls it, stores what it returns and returns it, or propagates its exception and stores nothing; unhashable arguments are passed through and the cache is left alone; a cache that holds only the function's values keeps doing so |
| Memoize.CallTwice | memoize.py:14-20 | calling twice with the same arguments gives the same outcome twice; the function runs once exactly when the arguments hash and the first call returns |
| MemoizeBatch.ResultFile | memoize_batch.py:19-20 | the result file name has no run of slashes |
| MemoizeBatch.BatchRecord | memoize_batch.py:25-31 | the record has exactly the keys identifier, filename, funcname, args, kwargs and result, holding the package's values and the result |
| MemoizeBatch.FunctionWrapper | memoize_batch.py:10-34 | when the call returns, its record is saved in the package's collapsed `directory/identifier.shelve` file, nothing else changes, and the identifier is returned; when it raises, the exception propagates and nothing is written |
| MemoizeBatch.ReadResult | memoize_batch.py:145-148 | reading a result back: the stored result, the dbm error for a missing file, KeyError for a record without a result |
| MemoizeBatch.ReadAfterRun | memoize_batch.py:67-88 | after a stack whose calls all returned ran, a package whose file no later package rewrites reads back its own function's result |
| MemoizeBatch.StoredAfterRun | memoize_batch.py:67-88 | after the stack ran, the result file of a package that no later package rewrites holds that package's own record |
| MemoizeBatch.LastWriteKept | memoize_batch.py:160-164 | when files are written in stack order, a file that no later package rewrites keeps what its own package wrote |
| MemoizeBatch.HashedKwargs | memoize_batch.py:123-127 | only the hashed copy of the keywords changes: an `inifile` name is replaced by that file's text, every other keyword is kept; a missing file is an IOError |
| MemoizeBatch.KwSetGet | memoize_batch.py:126 | after `kw[name] = v` on a present keyword, reading it gives `v` |
| MemoizeBatch.Batch.Execute | memoize_batch.py:113-151 | generate mode stacks exactly one package, carrying the original keywords, and returns the identifier; read mode leaves the stack alone and returns the result saved under the identifier |
| MemoizeBatch.Batch.RunStack | memoize_batch.py:160-164 | the packages run in stack order until the first whose call raises: the directory holds the records of the packages before it, and the result is that exception, or the identifiers in stack order when no call raises |
| MemoizeBatch.FirstFail | memoize_batch.py:160-164 | the position of the first package whose call raises: every package before it returns |
| MemoizeBatch.FirstFailStep | memoize_batch.py:160-164 | up to the first raising package, a package raises exactly when it is that one, and the packages up to a returning one all return |
| MemoizeBatch.Batch.MultiprocessStack | memoize_batch.py:153-172 | as written, the debug branch fails with NameError on the first package (`print_call` is not imported); the pool branch needs at least one process; otherwise the packages run as `RunStack` runs them: records saved up to the first raising call, whose exception is the result |
| MemoizeBatch.GenerateThenRead | memoize_batch.py:67-88 | generate, run the stack, then read the same call in read mode: the function's result comes back, or its exception when the call raised |
| CallIdentity.SortKwSpec | persistent_memoize.py:49-50 | `sorted(kwargs.items())` is sorted by key and a permutation of the items, so two orderings of one keyword set sort alike |
| CallIdentity.SortedUnique | persistent_memoize.py:49-50 | a sorted sequence of distinct keys is determined by its elements |
| CallIdentity.KeywordOrderIrrelevant | persistent_memoize.py:27-52 | writing the keywords of a call in another order leaves its identifier unchanged |
| CallIdentity.IdentifierSeparates | memoize_batch.py:58-60 | with a collision-free digest, two calls share an identifier only with the same function, positional arguments and keyword items, so `f(arg=True)` and `f()` are cached apart |
| CallIdentity.ShelveNameSpec | persistent_memoize.py:55-60 | the cache file is the collapsed directory followed by `identifier.shelve`, has no run of slashes, and its `.done` and `.busy` markers differ from it and from each other |
| CallIdentity.MarkersSeparate | persistent_memoize.py:59-60 | marker names of different cache files never coincide |
| PersistentMemoize.CallRecord | persistent_memoize.py:99-106 | the record has exactly the keys signature, filename, funcname, args, kwargs and result, with the identifier, arguments and result |
| PersistentMemoize.ReadCached | persistent_memoize.py:81-87 | reading a finished call back gives the stored result; a missing or unreadable file, or one without a result, is a ValueError |
| PersistentMemoize.Polled | persistent_memoize.py:71-75 | the waiting loop stops at the first directory state holding the done marker and reports whether one did |
| PersistentMemoize.MissEffect | persistent_memoize.py:89-115 | after a miss the record is stored, the done marker exists, the busy marker is gone, nothing else changes, and reading back gives the computed result |
| PersistentMemoize.HitAfterMiss | persistent_memoize.py:67-87 | a later call finds the done marker at once and returns the stored result without calling the function |
| PersistentMemoize.RaiseLeavesBusy | persistent_memoize.py:89-97 | a call whose function raised leaves the busy marker and no done marker, so every later call for the same file is marked and, unless another process writes the done marker, keeps waiting |
| PersistentMemoize.PolledNever | persistent_memoize.py:71-75 | the waiting loop never succeeds when no state it sees holds the done marker |
| PersistentMemoize.Memoize | persistent_memoize.py:45-117 | with a marker present, the call waits for the done marker and returns the stored result (or ValueError); without one, it sets the busy marker before running the function, then stores the record, sets the done marker and removes the busy one; when the function raises, the exception propagates and only the busy marker was written |
| PersistentMemoize.CallTwice | persistent_memoize.py:138-141 | two calls on a directory without markers: when the function returns, the first computes, the second, with its keywords in any order, reads the cache, and both return the function's value; when it raises, the first call raises and the second is left waiting on the busy marker |
| ProcessDaemon.ProcessJob | process_tools/process_daemon.py:24-45 | the directory and outcome are those of the job-effect function: rename to `.run`, read the spec, run the call, store `retval`, rename to `.done`, write the log, stopping where an error occurs |
| ProcessDaemon.JobNamesDistinct | process_tools/process_daemon.py:25-29 | the run, done and log names of a job are three different files |
| ProcessDaemon.JobOutcome | process_tools/process_daemon.py:24-45 | a job succeeds exactly when its file holds a readable spec whose call returns; then the done file holds the spec with `retval`, the run file is gone and the log exists; when the call raises the file stays at `.run` and no new done file appears; a missing file is an OSError; no other file changes |
| ProcessDaemon.FirstNone | process_tools/process_daemon.py:58-62 | the position of the first shutdown sentinel: every item before it is a job name |
| ProcessDaemon.WorkerRun | process_tools/process_daemon.py:53-75 | the worker's directory, how its loop ends and the queue it leaves are those of `Work`, the worker loop over the given queue; no directory is created or removed |
| ProcessDaemon.WorkEnds | process_tools/process_daemon.py:58-75 | unless a job raised SystemExit, the worker takes every job up to the first sentinel, whatever their outcome, ends with Shutdown exactly when there is a sentinel, and leaves the queue after it |
| ProcessDaemon.WorkRunsJobs | process_tools/process_daemon.py:58-75 | the directory the worker leaves is that of the jobs it took, processed one after the other in FIFO order |
| ProcessDaemon.WorkExitsAt | process_tools/process_daemon.py:70-73 | the worker ends with Exited exactly when the last job it took raised SystemExit, which `except Exception` does not catch |
| ProcessDaemon.WorkCarriesOn | process_tools/process_daemon.py:70-73 | every job the worker took before its last one had an outcome other than SystemExit: any other failure is caught and the loop goes on |
| ProcessDaemon.NthOutcomeCons | process_tools/process_daemon.py:58-75 | the outcome of the j-th queued job is that of the (j-1)-th job after the first one has run |
| ProcessDaemon.Nones | process_tools/process_daemon.py:93-94 | `n_worker` sentinels, each `None` |
| ProcessDaemon.Eligible | process_tools/process_daemon.py:100-105 | the scan moves exactly the globbed `*.job` files whose names lack `__db.` |
| ProcessDaemon.QueueNameOf | process_tools/process_daemon.py:106-108 | a globbed job file keeps its name up to the extension, and its queue name is canonical and ends in `.queue` |
| ProcessDaemon.QueueNamesSeparate | process_tools/process_daemon.py:106-109 | distinct job files get distinct queue names, and a queue name is never a job name |
| ProcessDaemon.DaemonPass | process_tools/process_daemon.py:89-112 | with the kill file present, one sentinel per worker is queued, the kill file removed and the loop stopped; otherwise every eligible job file is renamed to its queue name and that name queued exactly once, `__db.` files and everything else untouched |
| ProcessDaemonLegacy.FunctionWrapper | process_daemon.py:24-30 | the result is the package paired with the call's value, and the call's exception propagates |
| ProcessDaemonLegacy.JobFiles | process_daemon.py:104 | `glob('*.job')`: exactly the job files of the working directory |
| ProcessDaemonLegacy.EnqueueOnceStep | process_daemon.py:107-108 | queueing one more job file extends the pass's queued items by exactly that file |
| ProcessDaemonLegacy.DaemonPass | process_daemon.py:93-111 | with the kill file (named as given) present, one sentinel per worker is queued, the kill file removed and the loop stopped; otherwise every job file is queued exactly once and the directory is left as it is |
| ProcessDaemonLegacy.RepeatedEnqueue | process_daemon.py:104-108 | a job file still in place is queued once per pass, so after n passes the queue holds it n times |
| ProcessDaemonLegacy.TakenNotRequeued | process_daemon.py:55-104 | once a worker has taken a job file, whatever the job's outcome, the next pass no longer finds it |
| ScatterGather.JobRecord | process_tools/scatter_gather.py:68-74 | the job shelve holds exactly `funcname`, `args`, `kwargs`, `tag`, `identifier` and `call`; the tag is the execute key's value and the stored keywords no longer contain the execute key |
| ScatterGather.Without | process_tools/scatter_gather.py:115-116 | the stack keeps, in order, exactly the identifiers not dropped, and does not grow |
| ScatterGather.WithoutNone | process_tools/scatter_gather.py:115-116 | dropping nothing keeps the call stack |
| ScatterGather.WithoutTwice | process_tools/scatter_gather.py:115-116 | dropping identifiers over two passes is the same as dropping them together |
| ScatterGather.Classify | process_tools/scatter_gather.py:102-127 | a done file that cannot be opened raises; one that opens is merged exactly when its identifier is pending, its tag is a string and its return value is a dictionary or an empty list, tuple or string (which merges nothing); a missing key or an identifier not pending is skipped, a non-string tag or a return value that cannot be walked is a TypeError |
| ScatterGather.OutContents | process_tools/h5py_tree.py:57 | the output file opened for appending: a missing file starts empty, an HDF5 file gives its contents, and anything else is an IOError |
| ScatterGather.MergedEntries | process_tools/scatter_gather.py:109-123 | after a merge, the output file holds the new tree and the done file and the job's log are gone |
| ScatterGather.Scatterer.constructor | process_tools/scatter_gather.py:34-37 | a new scatterer has the function name and an empty call stack |
| ScatterGather.Scatterer.Scatter | process_tools/scatter_gather.py:39-79 | without an execute key nothing changes; otherwise the identifier is the digest of the call with its sorted keywords, the tag included, any stale done file (then the job file) is removed, the job file is written afresh with the job record, and the identifier is appended to the call stack |
| ScatterGather.Scatterer.GatherOne | process_tools/scatter_gather.py:102-127 | the handled file is recorded as a `GatherStep` from the old state: a skipped done file changes nothing, and a failure raises without changes; a merge appends the return value under `path + "/" + tag` and keeps the file's old contents; a failed HDF5 write leaves the stack alone; otherwise exactly that identifier leaves the stack, the done file is removed, and then the log is removed, its absence raising OSError |
| ScatterGather.Scatterer.GatherPass | process_tools/scatter_gather.py:96-127 | one polling pass: the recorded run handles distinct globbed done files one after another, each as `GatherStep` says from the state the previous one left; all of them are handled unless one raises, which ends the pass with its error; the final entries and stack are the last step's |
| ScatterGather.Scatterer.HandleNext | process_tools/scatter_gather.py:101-127 | the next done file of the pass, one not handled yet, is handled as `GatherStep` says and leaves the files still to do |
| ScatterGather.Scatterer.Gather | process_tools/scatter_gather.py:81-130 | any old output file is removed; with nothing pending the loop does not run and nothing else changes; otherwise one pass runs from the entries without the output file, and the stack afterwards is the old stack without exactly the merged identifiers, all of which were pending |
| ScatterGather.StepStack | process_tools/scatter_gather.py:106-115 | a handled done file removes its identifier from the stack exactly when it merged (the HDF5 write succeeded), and only a pending identifier merges |
| ScatterGather.TracedSnoc | process_tools/scatter_gather.py:101-127 | a pass that has not raised goes on with any done file it has not handled yet |
| ScatterGather.PassStack | process_tools/scatter_gather.py:101-127 | after any run of the pass, the stack is the old stack without exactly the identifiers merged, all of which were pending |
| ScatterGather.KwGetOf | process_tools/scatter_gather.py:54 | `kwargs[name]` is the value given for that keyword |
| ScatterGather.KwGetMoved | process_tools/scatter_gather.py:46-47 | the value of a keyword does not depend on the order its items came in |
| ScatterGather.KwGetSame | process_tools/scatter_gather.py:46-47 | two orderings of the same keywords agree on every keyword's value |
| ScatterGather.TagInHash | process_tools/scatter_gather.py:46-55 | the execute key is hashed before it is deleted: with a collision-free digest, the same call under two different tags gets two identifiers |
| ScatterGather.JobNamesOf | process_tools/scatter_gather.py:57-106 | the job, done and log names written by scatter and gather are the ones the daemon's worker derives from the job file |
| ScatterGather.JobDirAppend | process_tools/scatter_gather.py:57-96 | a job-directory name built with `%s/%s` collapses to the prefix that the glob searches |
| ScatterGather.DonesAfterJob | process_tools/scatter_gather.py:96 | once a scattered job has run in a directory without done files, the glob finds exactly its done file when the call returned, and none when it raised |
| ScatterGather.MergeReady | process_tools/scatter_gather.py:102-110 | the done file of a scattered job that returned a tree is merged under its tag, and the removed output file opens empty |
| ScatterGather.ScatterRunGather | process_tools/scatter_gather.py:26-32 | in the doctest's round trip, a failed call leaves no done file and its identifier pending; a returned call is found by the glob, and a returned tree with leaves is read back from the output file as written, with nothing left pending |
| ScatterGather.GatherScattered | process_tools/scatter_gather.py:102-123 | gathering a scattered call's done file into an empty output file reads back the call's tree, and its identifier leaves the stack |
| ScatterGatherLegacy.Scatterer.constructor | scatter_gather.py:36-39 | a new scatterer has the function name and an empty call stack |
| ScatterGatherLegacy.Scatterer.ScatterAsWritten | scatter_gather.py:39-52 | as written, a call without the execute key returns quietly, and a keyed call raises AttributeError at `utils.readable_call`, which the top-level `utils` module does not define, before any file is written or the stack grows |
| ScatterGatherLegacy.Scatterer.Scatter | scatter_gather.py:41-71 | with a job directory supplied, a call without the key changes nothing; otherwise the job file is created afresh (shelve mode `"n"`) with the call's record, and its identifier is appended to the stack |
| ScatterGatherLegacy.DoctestAsWritten | scatter_gather.py:29-34 | as written, the unkeyed doctest call returns quietly, every keyed call fails, and the stack stays empty |
| ScatterGatherLegacy.DoctestScattered | scatter_gather.py:29-34 | with a `readable_call` given and the job directory in place, the unkeyed call is ignored, the keyed calls stack their identifiers in call order, their job files exist, the last one holds the last call's record, and no file is lost |
| ScatterGatherLegacy.ScatterTwo | scatter_gather.py:31-32 | two keyed calls in a row stack both identifiers in call order, leave both job files present, the second holding its call's record, and lose no file |
| AggregateOutputs.RunAll | aggregate_outputs.py:42-52 | running the stack succeeds exactly when every wrapped call returns, and then gives one result per call; otherwise it fails with some call's exception |
| AggregateOutputs.FillOk | aggregate_outputs.py:59-63 | writing the results into the shelve succeeds exactly when every execute key is a string; otherwise it raises TypeError |
| AggregateOutputs.FillKeys | aggregate_outputs.py:59-63 | after a successful write, the shelve's keys are its old keys plus exactly the results' execute keys |
| AggregateOutputs.LastWriteWins | aggregate_outputs.py:59-63 | a result whose execute key no later result repeats is what the shelve holds under that key: the last write wins |
| AggregateOutputs.FillUntouched | aggregate_outputs.py:59-63 | a key that no result names keeps its value |
| AggregateOutputs.FillSameKey | aggregate_outputs.py:59-63 | when two results share one execute key, only the second is kept |
| AggregateOutputs.RunAllStops | aggregate_outputs.py:44-52 | the first exception ends the run: a failing prefix fails the whole stack with the same error |
| AggregateOutputs.RunTwo | aggregate_outputs.py:44-46 | running two calls that both return gives their two results, in order |
| AggregateOutputs.Aggregator.constructor | aggregate_outputs.py:17-20 | a new aggregator has the function name, the verbose flag and an empty stack |
| AggregateOutputs.Aggregator.PackageOf | aggregate_outputs.py:23-28 | the package is `(execute_key, funcname, args, kwargs)`, and the stored keywords no longer contain the execute key |
| AggregateOutputs.Aggregator.Execute | aggregate_outputs.py:22-32 | a missing execute key raises KeyError; the verbose branch raises NameError because `print_call` is never imported; otherwise exactly that call's package is appended to the stack |
| AggregateOutputs.Aggregator.RunStack | aggregate_outputs.py:42-46 | the debug loop's results are the stack's wrapped calls, in order, up to the first exception |
| AggregateOutputs.Aggregator.MultiprocessStack | aggregate_outputs.py:34-65 | the pool asks for `ncpu` processes when `ncpu` is non-zero, else `cpu_count() - save_cpu`, and raises ValueError below one; a call's exception leaves the stack and the files alone; otherwise the stack is reset and the shelve is created afresh with the results written in order |
| AggregateOutputs.SameKeyTwice | aggregate_outputs.py:59-63 | two debug-mode calls under the same execute key leave a shelve holding only the second call's result pair, and an empty stack |
| PersistentClass.HeadLength | process_tools/persistent_class.py:70 | the head of a path, through its last slash, is non-empty exactly when the path has a slash |
| PersistentClass.RStripSlash | process_tools/persistent_class.py:70 | stripping trailing slashes gives a prefix that does not end in a slash, and is non-empty when any character is not a slash |
| PersistentClass.DirName | process_tools/persistent_class.py:70 | `os.path.dirname` is empty exactly for a name without a slash |
| PersistentClass.NamesOf | process_tools/persistent_class.py:93-121 | iterating a varlist gives exactly its names when it is a list or tuple of strings, and raises TypeError otherwise |
| PersistentClass.Chosen | process_tools/persistent_class.py:78-115 | the names used are `varlist_in` when it is given, else the instance's `varlist`, else every attribute (on save) or every stored key (on load) |
| PersistentClass.Stored | process_tools/persistent_class.py:93-94 | the store holds exactly the listed names, each with the attribute's value |
| PersistentClass.Overlay | process_tools/persistent_class.py:121-125 | a listed name the store holds takes the stored value; every other attribute keeps its value; a listed name missing from the store is skipped |
| PersistentClass.OverlayStep | process_tools/persistent_class.py:121-125 | loading one more name adds just that name's stored value, or nothing when the store lacks it |
| PersistentClass.OverlayNone | process_tools/persistent_class.py:121-125 | loading no names leaves the attributes unchanged |
| PersistentClass.ShelveLoadRoundTrip | process_tools/persistent_class.py:59-127 | shelving the listed attributes and loading them into another instance gives it those values, and every other attribute of that instance is unchanged |
| PersistentClass.MissingSkipped | process_tools/persistent_class.py:122-125 | a listed name that the store lacks is skipped: the attribute keeps whatever it had, and the other names still load |
| PersistentClass.LoadOutcome | process_tools/persistent_class.py:98-127 | a store that cannot be read raises with nothing changed, as does a varlist that is not a list of names; otherwise exactly the chosen names the store holds are loaded |
| PersistentClass.TestVarlistNames | process_tools/persistent_class.py:195 | the test class's varlist names exactly `var1` and `var2` |
| PersistentClass.Persistent.constructor | process_tools/persistent_class.py:41-42 | an instance starts with the attributes it is given; `ClassPersistence.__init__` itself sets none |
| PersistentClass.Persistent.WriteNames | process_tools/persistent_class.py:93-94 | writing the names succeeds exactly when each is an attribute, and the store then holds exactly those attributes; otherwise it raises KeyError, keeping the attributes written before the missing one |
| PersistentClass.Persistent.ShelveVariablesAsWritten | process_tools/persistent_class.py:70-73 | as written, a bare file name has an empty directory part, and `os.mkdir("")` raises OSError before anything is written |
| PersistentClass.Persistent.ShelveVariables | process_tools/persistent_class.py:59-96 | when the directory part is neither empty nor a directory and `os.mkdir` cannot create it (a file in the way, or its parent missing), OSError with nothing changed; otherwise the store is created afresh (`'n'`) and holds exactly the chosen attributes, with KeyError for a listed name that is not an attribute and TypeError for a varlist that is not a list of names |
| PersistentClass.Persistent.FillStore | process_tools/persistent_class.py:75-94 | the store is created empty, then holds exactly the chosen attributes, or raises KeyError or TypeError; no other file changes |
| PersistentClass.Persistent.LoadVariables | process_tools/persistent_class.py:98-127 | the result and the new attributes are those of the load outcome |
| PersistentClass.Persistent.SetNames | process_tools/persistent_class.py:121-125 | the `setattr` loop leaves exactly the overlay: every listed name the store holds gets the stored value, and everything else is unchanged |
| PersistentClass.Persistent.Init | process_tools/persistent_class.py:191-208 | `varlist` is set first; with no positional values and a `shelve_filename` keyword, `var1` and `var2` are loaded from that store (DbError when it cannot be read); otherwise they are the first two positional values, with IndexError when there are fewer |
| PersistentClass.ShelveHereAsWritten | process_tools/persistent_class.py:70-73 | as written, shelving the doctest's instance to a file in the working directory raises OSError |
| PersistentClass.DoctestRoundTrip | process_tools/persistent_class.py:156-170 | shelving the test instance and building a new one from the store gives back exactly `varlist`, `var1` and `var2` |
| PersistentClass.LoadBack | process_tools/persistent_class.py:164-204 | an instance built from a readable store has `varlist` and whichever of `var1` and `var2` the store holds |
| PersistentClass.DoctestPartial | process_tools/persistent_class.py:173-187 | after shelving only `var1`, an instance built from the store has `var1` with its value and no `var2` |
| Strings.Split | file_tools.py:130 | `str.split(sep)` gives at least one part, and no part contains the separator |
| Strings.JoinSplit | file_tools.py:89 | `"/".join(s.split("/"))` is `s` again |
| Strings.SplitJoin | utils.py:83 | splitting joined parts that contain no separator gives the parts back |
| Strings.CollapseSlashes | memoize_batch.py:20 | `re.sub('/+', '/', s)` leaves no doubled slash, keeps the first character and never lengthens the name |
| Strings.CollapseIdempotent | persistent_memoize.py:56 | collapsing slashes a second time changes nothing |
| Strings.RFind | file_tools.py:118 | `rfind` gives the last index of the character, or -1 when there is none |
| Strings.SplitExt | process_tools/process_daemon.py:25 | `os.path.splitext` splits the name into a base and an extension that concatenate back to it; the extension is empty or a dot with no further dot or slash |
| Strings.SplitExtOf | process_tools/process_daemon.py:106 | a job file name splits into its base and `.job` |
| Storage.ShelfAt | process_tools/scatter_gather.py:102 | `shelve.open(name, "r")` gives the records exactly when the file exists and is a database, and otherwise the dbm error |
| Storage.Lookup | process_tools/scatter_gather.py:104 | `shelf[key]` gives the stored value exactly when the key is present, and otherwise KeyError |
| Storage.Glob | process_tools/scatter_gather.py:96 | `glob.glob(prefix + "*" + ext)` finds exactly the files directly under the prefix whose names end in the extension, with a non-empty, slash-free, non-hidden name in between |
| Storage.Directory.Write | persistent_memoize.py:90 | creating or truncating a file leaves the new content under its collapsed name, and no other file or directory changes |
| Storage.Directory.Remove | process_tools/scatter_gather.py:83 | `os.remove` takes the file away and raises OSError exactly when there was none; nothing else changes |
| Storage.Directory.Rename | process_tools/process_daemon.py:31 | `os.rename` moves the content to the target, replacing any file there, and raises OSError, changing nothing, exactly when the source is missing |
| Storage.Directory.IsDir | process_tools/persistent_class.py:72 | the empty name is never a directory |
| Storage.Directory.MakeDir | process_tools/persistent_class.py:73 | `os.mkdir` adds the directory, and raises OSError, changing nothing, exactly when the name is empty, already taken by a file or a directory, or its parent directory does not exist; files are untouched |
| TreeTools.Walk | process_tools/tree_tools.py:4-30 | `walk` yields the root dict under `"/"` |
| TreeTools.FlattenSpec | process_tools/tree_tools.py:51-74 | the intended flat dictionary holds exactly the tree's array leaves, each under its slash-joined path |
| ProcessDaemon.EligibleJobNames | process_tools/process_daemon.py:100-105 | every file the scan moves is a job file name in the job directory |
| Hdf5.H5File.CreateGroup | file_tools.py:25 | `create_group` succeeds exactly when the name is free, and then adds an empty group at that path; otherwise it raises RuntimeError and the file is unchanged |
| Memoize.Memoized.constructor | memoize.py:10-12 | a new memoizer holds the function and an empty cache |
| MemoizeBatch.Batch.constructor | memoize_batch.py:95-111 | a new batch holds its function name, directory and generate flag, and an empty call stack |

## Left out

- numpy numerics: arrays are values with a dtype, a shape and nested cells. No arithmetic is done on them, and `np.zeros` gives zero cells of the dtype.
- sha224 over `pickle.dumps`: the digest is a function parameter. Properties that need distinct names assume it is injective, as a `requires`. Pickling of arguments and `utils.readable_call`/`repr` text are parameters as well.
- shelve, h5py and cPickle: a shelve is a map from keys to values, and an HDF5 file is a tree. File contents carry no encoding. Writeback, file locking and the on-disk format are not modelled.
- `save_pickle`/`load_pickle`, `path_properties`, `hashfile`, `load_shelve_over_http`, `mkdir_p` and `get_env`'s `sys.exit`: serialization, OS metadata, the network and process exit.
- multiprocessing: the inter-process queue is a sequence, and `pool.map` is a sequential map in stack order. `cpu_count()` is a parameter. Each daemon loop is modelled as one pass, and each worker as its loop over a given queue. Interleavings of concurrent workers are not modelled.
- `time.sleep`, the `random.uniform` jitter and float timings (the elapsed time in the persistent cache record, and the `log_timing` message) are left out. The polling loops see a finite sequence of directory snapshots, and running out of snapshots is a `Waiting` outcome rather than an endless wait.
- Console and log text: `print` output and the `StringIO` redirection of stdout are not modelled. The job log is an empty marker file, and `gather`'s `log_filename` concatenation is not modelled. The older worker does not restore stdout after an exception; that is not modelled either.
- Python dictionary order: the model iterates maps in any order (`:|`), and every contract is order-independent. Python 2's `**kwargs` is a plain dict whose iteration order does not follow the call; the model takes the keywords as a sequence in some fixed order, which `Utils.KwItems` and `Utils.PrintCall` list in, and the identifiers sort them, so nothing proved depends on that order.
- PersistentClass: a `varlist` is taken as a set of names. A value that is not a list or tuple of strings raises TypeError. In the source `for key in varlist_in` iterates any iterable (a string gives its characters, a dict its keys), and an item that is not an attribute name, a non-string included, raises KeyError at `self.__dict__[key]` (`persistent_class.py:94`) after the names before it in the list were written; the model writes names in no particular order.
- ProcessDaemon.WorkerRun: the loop ends at the sentinel, at a job that raised SystemExit (whose exception would then propagate out of `run`), or when the given queue runs out. A real worker would block on an empty queue. Other exceptions that `except Exception` does not catch, such as KeyboardInterrupt, are not modelled.
- ScatterGather.Scatterer.Gather: models the output-file removal and one pass of the polling loop. The loop repeats that pass until the stack is empty, and may wait forever.
- ScatterGather.Classify: a return value that is a dictionary is merged and an empty list, tuple or string merges nothing. Any other return value fails with TypeError, before the output file is opened. In the source `convert_numpytree_hdf5` iterates the value and indexes it with what it yields, after the file has been opened: a non-empty list, tuple or 1-D array indexed by its own items may merge nothing and succeed, or fail with IndexError or TypeError, and a non-iterable fails with TypeError. The model does not follow that walk.
- ScatterGatherLegacy: `gather` only prints its argument and is not modelled.
- TreePaths.SetLeaf: the ValueError for an item assignment on an ndarray is what numpy of the source's era raises for a missing field name; later numpy versions raise IndexError there.
- TreeAggregate.FillEntry: a slice whose shape differs from the allocated row is a ValueError. numpy's `agg_tree[k][index, ...] = v` broadcasts, so a value whose shape broadcasts to the row's (a scalar, or `ones(3)` into a `(2, 3)` row) fills the slice and succeeds in the source. dtype casting on assignment is not modelled either.
- FillAll: inherits FillEntry's refusal of broadcastable slices.
- AggregateTree: succeeds exactly when every tree's leaves have the first tree's shapes. Trees whose leaves only broadcast to those shapes are stacked by the source but fail in the model; `TreesCompatible` and `UnfitNotCompatible` use the same equal-shape test.
- Memoize.Memoized.Call: the cache is keyed by structural equality of values. Python's dict compares keys with `==` and `hash`, so `f(True)` after `f(1)` (or `f(1.0)`) is a hit that returns `f(1)`; the model calls the function again and stores a second entry.
- MemoizeBatch.Batch.MultiprocessStack: the pool branch runs the calls as the debug loop does, in stack order, stopping at the first raising call. `pool.map` runs every call, so records of returning calls after a raising one are also written, and the exception it re-raises is that of the first failing chunk to report. Pool scheduling is not modelled.
- Memoize.Memoized.Call: the wrapped function is a value that cannot reach the memoizer, so a miss adds exactly one entry. A function that calls its own decorated name, like the module's `fibonacci`, re-enters `__call__`, and each inner miss adds its own entry before the outer one: `fibonacci(5)` on an empty cache ends with entries for `(0,)` to `(5,)`. Those re-entrant entries are not modelled.
- PersistentMemoize.Memoize: likewise, the wrapped function is taken not to call the memoizer. In the source the decorated `fibonacci` calls itself through the decorator, so each inner miss writes its own shelve, done marker and busy-marker removal while the outer call's busy marker stands; `fibonacci(5)` on an empty directory leaves six shelve and done file pairs, where the model's miss writes one.
- Storage.Directory.Write: creating a file always succeeds. In the source, `open(name, "w")` and `shelve.open(name, "n")` raise IOError when the parent directory does not exist; the model's `dirs` are consulted only by `IsDir` and `MakeDir`.
- CallIdentity.Identifier: the positional arguments are one sequence. The source pickles a list (`rehashed`) in `persistent_memoize.py` and `process_tools/scatter_gather.py` and a tuple in `memoize_batch.py`, so the same call gets different identifiers in the two caches; the model does not tell them apart.
- MemoizeBatch.Batch.MultiprocessStack: returns the identifier list the source prints; the source itself returns None. The verbose branch of `execute` calls `print_call`, which this module does not import, and that NameError is not modelled.
- MemoizeBatch: `pbsprocess_stack` and `report_cache_table` are stubs that only print, and are not modelled.
- AggregateOutputs: the module calls `function_wrapper` without defining or importing it. The model takes it to be the pair-returning wrapper of `process_daemon.py`.
- PersistentClass: in the older `persistent_class.py`, `TestClassPersistence.__init__` calls `super(MapPair, self)` (NameError) and the module lacks `import shelve`. The model gives that copy the behaviour of the newer one.
- Utils: `utils.py` lacks the `re`, `random` and `shelve` imports that `print_call` and `function_wrapper` use. `Utils.PrintCall` and `Utils.FunctionWrapper` model the intended behaviour.
- Utils: the `[TIMING]` message of `log_timing` is not modelled (float time). `readable_call`, `func_exec`, `timestamp` and `proc_info` are called but not defined in `utils.py`, so they are parameters or are left out.
- FileTools: the `_print_*` console printers are output only and are not modelled. `mkparents` and `print_multicolumn` are modelled as the directory they decide to create and the rows and format they write. The `mkdir_p`/`os.mkdir` calls and the file writes themselves are not modelled.
- Command-line drivers, example scripts, `setup.py` and the doctest runner blocks are not modelled.

## Findings

| source | as written | input that shows it | evidently intended | confidence | as-written member | corrected member |
|---|---|---|---|---|---|---|
| file_tools.py:224-227 | `"/".join(pathname.split("/")[:-1])` is `""` for a file directly under `/`, and then becomes `"."` | `extract_rootdir("/data.txt")` gives `"./"` | `"/"`, the directory that holds the file | not executed | FileTools.RootdirAtRoot | FileTools.RootdirFixedSpec |
| utils.py:47 | the length test reads `rep_rout`, a name that is never defined | `short_repr(x, maxlen=10)` raises NameError | compare `len(repr_out)` against `maxlen` | not executed | Utils.ShortReprAsWritten | Utils.ShortRepr |
| memoize_batch.py:163 | the debug loop calls `print_call`, which the module never imports | `multiprocess_stack(debug=True)` with one stacked call raises NameError | print each call and run it | not executed | MemoizeBatch.Batch.MultiprocessStack | MemoizeBatch.Batch.RunStack |
| scatter_gather.py:52 | calls `utils.readable_call`, but the top-level `utils` module it imports defines no such function (and line 59 then reads `pd.job_directory`, which the top-level `process_daemon` does not define either) | `scatter("a1", "a2", execute_key="one")` raises AttributeError | describe the call with a `readable_call` that exists and write the job file into the daemon's job directory | not executed | ScatterGatherLegacy.DoctestAsWritten | ScatterGatherLegacy.DoctestScattered |
| process_tools/persistent_class.py:70-73 | `os.mkdir(os.path.dirname(filename))` runs whenever the directory part is not a directory, including when it is empty | `shelve_variables("test.shelve")` calls `os.mkdir("")` and raises OSError | create the directory only when the name has one | not executed | PersistentClass.ShelveHereAsWritten | PersistentClass.DoctestRoundTrip |
