# DirectorySize in Dafny

DirectorySize is one small utility written many times over: in C# (the
csharp8, csharp9, csharp10, csharp12, csharp13 and csharp14 projects), in
Python and in Go. Each version takes a root directory, measures the bytes
and the file count of every subdirectory tree, records the errors it meets,
and prints a table of the subdirectories, largest first. The later C#
versions add an interactive browser that walks down into the tree. This
project models the measuring code of each version, the string helpers
(markup escaping, path trimming and truncation, relative ages), the console
paging of csharp8 and csharp9, both browsers, and the Go sort adapter. It
proves what these promise.

The file system is a value, `FileSystem.Dir`. A directory has a file listing
and a subdirectory listing. Either listing is `Complete`, or `Truncated`: it
yields some items and then throws with a message. Every file length is
either readable or throws with a message. Exceptions become `Result` and
`Outcome` values, or entries in an `ErrorLog` object. The workers of
`Parallel.ForEach` become a `schedule`, the order in which they finish.
Each repository is a `class` whose methods update its fields. Pure helpers
are functions. Every loop of the source is a `method` with a loop. Each such
method is proved against a reference function, and the lemmas are proved
about those functions.

Modules, one per source file or group of files:

- `FileSystem` (filesystem.dfy): the tree, the sums over it, and the error log.
- `Seqs` (seqs.dfy): generic sums, maps and a stable descending sort over sequences.
- `CSharp8Repository` and `CSharp9Repository`: the two early repositories.
- `CommonRepository`: csharp10, csharp12 and the `Common/` repository of csharp13. They differ only in whether `Count()` or `Sum()` runs first.
- `CSharp13Tree`: csharp13's `DirectorySize/` repository, which builds a statistics tree.
- `CSharp14Statistics`: csharp14's `DirectoryStatistics.cs`.
- `PythonDirSize`: `dirsize.py`.
- `TextUtils`: both `Utils.cs` files.
- `ConsolePaging`, `CSharp8Output` and `CSharp9Output`: the console tables of csharp8 and csharp9.
- `Navigation`: both browsers.
- `Browsers`: the browsers connected to the csharp13 and csharp14 trees.
- `GoSorted`: `sorted.go` and `sorted()`.

Where a version's notes and its code disagree, the model follows the code:

- csharp14's `Models.cs` declares no `LastModified` on `DirectoryStatistics`, but `DirectoryStatistics.cs` sets one. The model gives the record that field.
- The Python top level tests bare names in the working directory, not in the root. The model keeps that behaviour and logs it under Findings.

## Model

| member | source | states |
|---|---|---|
| FileSystem.BaseNameOfChild | csharp14/Common/Utils.cs:19 | The last path segment of parent + "/" + name is the name itself, for a name that holds no separator. |
| FileSystem.ErrorLog.constructor | csharp10/Common/DirectoryRepository.cs:78-81 | A new error list starts empty. |
| FileSystem.ErrorLog.Add | csharp10/Common/DirectoryRepository.cs:78-81 | `_errors.Add` appends exactly one entry at the end and changes nothing else. |
| FileSystem.FirstUnreadable | csharp8/DirectoryRepository.cs:107-109 | Gives the position of the first file whose length throws. Every file before it is readable, and the position is at the end exactly when all files are readable. |
| CommonRepository.OwnFiles | csharp10/Common/DirectoryRepository.cs:55-59 | getCurrentDirectoryFileSize succeeds exactly when the listing completes and every length is readable. It then returns the listing's total bytes and its number of files. |
| CommonRepository.DirectorySizeAfterOwnFiles | csharp10/Common/DirectoryRepository.cs:66-75 | Once a directory's own files are measured, its size and count are those plus its children's. Its errors are the children's errors, then one for a subdirectory listing that throws. |
| CommonRepository.GetDirectorySize | csharp10/Common/DirectoryRepository.cs:61-85 | The recursive method returns the reference size and count, and appends the reference errors to the log in order. |
| CommonRepository.MeasureChildren | csharp10/Common/DirectoryRepository.cs:70-74 | The foreach adds every child the listing yields, then logs the listing's own failure. |
| CommonRepository.HealthyMeasuresWholeTree | csharp12/Common/DirectoryRepository.cs:64-88 | In a subtree where nothing fails, the measure is every byte and every file of that subtree, and nothing is logged. |
| CommonRepository.NoErrorsIffHealthy | csharp10/Common/DirectoryRepository.cs:66-82 | Nothing is logged if and only if no listing and no length lookup in the subtree fails. |
| CommonRepository.ErrorsBounded | csharp10/Common/DirectoryRepository.cs:76-82 | At most one error is logged per directory in the subtree. |
| CommonRepository.NeverOvercounts | csharp12/Common/DirectoryRepository.cs:66-78 | Failures only lose data: size and count never exceed the subtree's bytes and files. |
| CommonRepository.MessagePriority | csharp10/Common/DirectoryRepository.cs:55-59 | When both the listing and a length fail, Count()-first (csharp10) logs the listing's message and Sum()-first (csharp12 and csharp13) logs the unreadable file's message. |
| CommonRepository.EvaluationOrderAgreement | csharp12/Common/DirectoryRepository.cs:58-62 | csharp10 and csharp12/13 agree on size and count for every tree, and log errors for the same directories in the same order. |
| CommonRepository.TruncatedSubdirsKeepYielded | csharp13/Common/DirectoryRepository.cs:73-78 | A subdirectory listing that throws keeps the sizes and errors of the children it yielded. It adds exactly one error naming the directory, with the listing's message. |
| CommonRepository.ChildrenClosedForm | csharp10/Common/DirectoryRepository.cs:70-74 | The children's measure is the sum of their recursive sizes and counts, with their error lists joined in order. |
| CommonRepository.CompleteRunIsRecursive | csharp13/Common/DirectoryRepository.cs:26-40 | With a readable root and any worker finishing order, the own files plus all the workers give the recursive size and count of the root. The errors are the same up to order. |
| CommonRepository.TryAdd | csharp10/Common/DirectoryRepository.cs:32 | ConcurrentDictionary.TryAdd adds the key. Every existing value is kept, and a new key maps to the given value. |
| CommonRepository.AddAllKeeps | csharp12/Common/DirectoryRepository.cs:33 | A series of TryAdds never changes a key already present. |
| CommonRepository.AddAllKeys | csharp12/Common/DirectoryRepository.cs:33 | Every new key after a series of TryAdds is the path of one of the added entries. |
| CommonRepository.AddAllValue | csharp12/Common/DirectoryRepository.cs:33 | With distinct new paths, every entry ends up stored under its own path. |
| CommonRepository.AddAllOrderIrrelevant | csharp12/Common/DirectoryRepository.cs:29-42 | With distinct paths new to the dictionary, the dictionary does not depend on the order in which the workers finish. |
| CommonRepository.DirectoryRepository.constructor | csharp10/Common/DirectoryRepository.cs:13-19 | A new repository has an empty dictionary, an empty error list, zero totals and a zero counter. |
| CommonRepository.DirectoryRepository.Open | csharp10/Common/DirectoryRepository.cs:13-19 | The constructor throws DirectoryNotFoundException exactly when the path does not exist; otherwise the repository starts empty. |
| CommonRepository.DirectoryRepository.OpenChecked | csharp13/Common/DirectoryRepository.cs:12-19 | A null path throws ArgumentNullException("path") before the existence check. A missing path throws DirectoryNotFoundException, and otherwise the repository starts empty. |
| CommonRepository.DirectoryRepository.MergeWorker | csharp10/Common/DirectoryRepository.cs:29-39 | One worker TryAdds its subdirectory's statistics, logs its errors, increments the counter and adds its size and count to the totals. |
| CommonRepository.DirectoryRepository.MergeWorkers | csharp12/Common/DirectoryRepository.cs:29-42 | All workers in finishing order: totals and counter grow by their sums, the errors are appended in that order, and the dictionary gets every entry. |
| CommonRepository.DirectoryRepository.Run | csharp13/Common/DirectoryRepository.cs:21-46 | A failing root listing throws first, then failing own files. Either failure leaves the state unchanged. Otherwise the totals are the own files plus every worker, and the root and every subdirectory are in the dictionary. |
| CSharp8Repository.OwnFilesBounds | csharp8/DirectoryRepository.cs:102-111 | The own-files measure never exceeds the listing, and it is exact when nothing fails. |
| CSharp8Repository.MeasureOwnFiles | csharp8/DirectoryRepository.cs:102-111 | The try block's loop gives the reference own-files measure: count first, then lengths until the first one throws. |
| CSharp8Repository.GetDirectorySize | csharp8/DirectoryRepository.cs:97-125 | The recursive method returns the reference size and count for both values of `recurse`. |
| CSharp8Repository.HealthyMeasuresWholeTree | csharp8/DirectoryRepository.cs:113-124 | Without failures, the recursive measure is every byte and file of the subtree. |
| CSharp8Repository.NeverOvercounts | csharp8/DirectoryRepository.cs:97-125 | Failures only lose data. |
| CSharp8Repository.UnreadableFileKeepsCount | csharp8/DirectoryRepository.cs:104-111 | If the k-th length throws, the full file count is kept but only the bytes of the first k files. |
| CSharp8Repository.OwnFilesOnly | csharp8/DirectoryRepository.cs:113 | With `recurse` false, the subdirectory listing has no effect. |
| CSharp8Repository.TruncatedSubdirsKeepYielded | csharp8/DirectoryRepository.cs:114-124 | A subdirectory listing that throws gives the same result as a listing of the children it yielded; the exception is swallowed. |
| CSharp8Repository.ChildrenClosedForm | csharp8/DirectoryRepository.cs:113-124 | The children's sums are the sums of their recursive results. |
| CSharp8Repository.MergeOrderIrrelevant | csharp8/DirectoryRepository.cs:42-56 | The merged totals are the same for any finishing order of the workers. |
| CSharp8Repository.CompleteRunIsRecursive | csharp8/DirectoryRepository.cs:36-54 | With a root listing that completes, every worker merges. The own files plus the workers are one recursive measurement of the root. |
| CSharp8Repository.MergeCount | csharp8/DirectoryRepository.cs:14-53 | Every worker merges when the root listing completes. ReportProgress re-enumerates the root inside the lock, so a throwing root listing stops the run once the bodies under way have merged: at least one when there is a worker (an assumption about the partitioner, see "## Left out"), never more than MAXPARALLEL (20), and exactly `running` when that is between 1 and both bounds. |
| CSharp8Repository.DirectoryRepository.constructor | csharp8/DirectoryRepository.cs:24-30 | A new repository has no entries, zero totals and a zero counter. |
| CSharp8Repository.DirectoryRepository.Open | csharp8/DirectoryRepository.cs:24-30 | DirectoryNotFoundException exactly when the path does not exist; otherwise an empty repository. |
| CSharp8Repository.DirectoryRepository.MergeWorker | csharp8/DirectoryRepository.cs:45-55 | One worker appends its subdirectory's entry, increments the counter and adds its totals. |
| CSharp8Repository.DirectoryRepository.MergeWorkers | csharp8/DirectoryRepository.cs:42-56 | The workers that merge (MergeCount of them, given the `running` bodies) append their entries in finishing order, and the totals grow by their sums. |
| CSharp8Repository.DirectoryRepository.Traverse | csharp8/DirectoryRepository.cs:32-60 | The root's own entry comes first, then the merged workers, up to MAXPARALLEL of them when the root listing throws. The outcome fails exactly when the root listing throws. |
| CSharp9Repository.OwnFiles | csharp9/DirectoryRepository.cs:77-89 | At most one error, naming the directory. No error exactly when the listing completes and every length is readable, and then the value is exact. With an error the size is 0. |
| CSharp9Repository.MeasureOwnFiles | csharp9/DirectoryRepository.cs:77-89 | The first try block gives the reference measure and logs its error. |
| CSharp9Repository.GetDirectorySize | csharp9/DirectoryRepository.cs:72-110 | The recursive method returns the reference size and count, and logs the reference errors in order. |
| CSharp9Repository.MeasureChildren | csharp9/DirectoryRepository.cs:91-108 | The second try block measures every child the listing yields, then logs the listing's failure. |
| CSharp9Repository.HealthyMeasuresWholeTree | csharp9/DirectoryRepository.cs:72-110 | Without failures, the result is the whole subtree with no errors. |
| CSharp9Repository.NoErrorsIffHealthy | csharp9/DirectoryRepository.cs:83-107 | Nothing is logged if and only if nothing in the subtree fails. |
| CSharp9Repository.ErrorsBounded | csharp9/DirectoryRepository.cs:83-107 | At most one error without recursion, and at most two per directory (one per try block) with it. |
| CSharp9Repository.NeverOvercounts | csharp9/DirectoryRepository.cs:72-110 | Failures only lose data. |
| CSharp9Repository.UnreadableFileKeepsCount | csharp9/DirectoryRepository.cs:77-82 | A length that throws inside Sum() leaves the size at 0 and keeps the full count. It logs that length's message. |
| CSharp9Repository.TruncatedSubdirsKeepYielded | csharp9/DirectoryRepository.cs:91-109 | A subdirectory listing that throws keeps the yielded children's sums and errors, and adds one error naming the directory. |
| CSharp9Repository.ChildrenClosedForm | csharp9/DirectoryRepository.cs:95-99 | The children's measure is the sum, and the joined error lists, of their recursive results. |
| CSharp9Repository.MergeOrderIrrelevant | csharp9/DirectoryRepository.cs:40-54 | The merged totals are the same for any finishing order. The logged errors are the same up to order. |
| CSharp9Repository.CompleteRunIsRecursive | csharp9/DirectoryRepository.cs:35-54 | With a root listing that completes, the own files plus the workers are one recursive measurement of the root. The errors are the same up to order. |
| CSharp9Repository.DirectoryRepository.constructor | csharp9/DirectoryRepository.cs:23-29 | A new repository has no entries, no errors, zero totals and a zero counter. |
| CSharp9Repository.DirectoryRepository.Open | csharp9/DirectoryRepository.cs:23-29 | DirectoryNotFoundException exactly when the path does not exist; otherwise an empty repository. |
| CSharp9Repository.DirectoryRepository.MergeWorker | csharp9/DirectoryRepository.cs:44-53 | One worker logs its errors, appends its entry, increments the counter and adds its totals. |
| CSharp9Repository.DirectoryRepository.MergeWorkers | csharp9/DirectoryRepository.cs:40-54 | All workers in finishing order: entries and errors in that order, and totals grown by their sums. |
| CSharp9Repository.DirectoryRepository.Run | csharp9/DirectoryRepository.cs:31-58 | The root's own files are recorded and logged first. A root listing that throws then fails the run with no worker merged; otherwise every worker merges. |
| CSharp13Tree.GrowAllTotals | csharp13/DirectorySize/DirectoryRepository.cs:69-75 | Adding children one at a time, as the foreach and the locked merges do, keeps the path, appends them in order and adds up their sizes and file counts. |
| CSharp13Tree.GrowOrderIrrelevant | csharp13/DirectorySize/DirectoryRepository.cs:44-53 | The total size and count after the locked merges do not depend on the order the workers finish in. |
| CSharp13Tree.CurrentStats | csharp13/DirectorySize/DirectoryRepository.cs:19-22 | The own-files statistics succeed exactly when the csharp13 sums succeed, with the same values and the same message. |
| CSharp13Tree.GetDirectorySize | csharp13/DirectorySize/DirectoryRepository.cs:61-84 | The recursive method returns the reference tree and logs exactly the errors of the csharp13/Common traversal. |
| CSharp13Tree.AddSubdirectories | csharp13/DirectorySize/DirectoryRepository.cs:69-75 | The foreach returns the reference tree after every yielded child, and logs their errors and then the listing's failure. |
| CSharp13Tree.TreeAgreesWithTotals | csharp13/DirectorySize/DirectoryRepository.cs:61-84 | The tree's size and count are those of the csharp13/Common traversal. |
| CSharp13Tree.TreeShape | csharp13/DirectorySize/DirectoryRepository.cs:61-84 | A node lists the trees of its yielded subdirectories in order; its totals are its own files plus theirs. A directory whose files fail is an empty node. |
| CSharp13Tree.DirectoryRepository.constructor | csharp13/DirectorySize/DirectoryRepository.cs:26-31 | Empty totals, an empty error list and a zero counter. |
| CSharp13Tree.DirectoryRepository.Open | csharp13/DirectorySize/DirectoryRepository.cs:26-31 | DirectoryNotFoundException exactly when the path does not exist. |
| CSharp13Tree.DirectoryRepository.MergeWorker | csharp13/DirectorySize/DirectoryRepository.cs:42-54 | One worker grows the total statistics by its subtree, logs its errors and increments the counter. |
| CSharp13Tree.DirectoryRepository.MergeWorkers | csharp13/DirectorySize/DirectoryRepository.cs:40-55 | All workers in finishing order: their subtrees are appended and their sizes, counts and errors added. |
| CSharp13Tree.DirectoryRepository.Analyze | csharp13/DirectorySize/DirectoryRepository.cs:33-59 | A failing root listing throws first, then failing own files, and either leaves the state unchanged. Otherwise the totals are the root's own files plus every worker's subtree. |
| CSharp13Tree.AnalyzeIsRecursive | csharp13/DirectorySize/DirectoryRepository.cs:46-53 | For any finishing order, Analyze's totals equal one recursive measurement of the root. |
| CSharp14Statistics.Entries | csharp14/DirectoryStatistics.cs:47 | The entry enumeration completes exactly when both the file and the subdirectory enumerations complete. |
| CSharp14Statistics.EntrySums | csharp14/DirectoryStatistics.cs:47-55 | The loop over all entries adds exactly the bytes and the number of the readable files. Subdirectory entries add nothing. |
| CSharp14Statistics.GetCurrentDirectoryStats | csharp14/DirectoryStatistics.cs:31-66 | The loop gives the reference statistics. It never throws, and a throwing enumeration leaves the empty statistics. |
| CSharp14Statistics.GrowAllTotals | csharp14/DirectoryStatistics.cs:117-123 | Adding children one at a time, as the foreach and the locked merges do, keeps the path and time, appends them in order and adds up their sizes and file counts. |
| CSharp14Statistics.GrowOrderIrrelevant | csharp14/DirectoryStatistics.cs:94-106 | The total size and count after the locked merges do not depend on the order the workers finish in. |
| CSharp14Statistics.GetDirectorySize | csharp14/DirectoryStatistics.cs:112-133 | The recursive method returns the reference tree and logs the reference errors in order. |
| CSharp14Statistics.TreeShape | csharp14/DirectoryStatistics.cs:118-124 | Every node lists all its yielded subdirectories' trees in order, and its totals are its own statistics plus theirs. |
| CSharp14Statistics.NoErrorsIffListingsComplete | csharp14/DirectoryStatistics.cs:116-130 | Nothing is logged exactly when no subdirectory enumeration in the subtree throws. File failures are never logged. |
| CSharp14Statistics.ErrorsBounded | csharp14/DirectoryStatistics.cs:126-130 | At most one error per directory reached. |
| CSharp14Statistics.NeverOvercounts | csharp14/DirectoryStatistics.cs:112-133 | Failures only lose data. |
| CSharp14Statistics.HealthyMeasuresWholeTree | csharp14/DirectoryStatistics.cs:112-133 | Without failures, the tree's totals are every byte and file of the subtree. |
| CSharp14Statistics.UnreadableFileSkipped | csharp14/DirectoryStatistics.cs:49-54 | An unreadable file is skipped: the count drops below the listing while the other files' bytes still count. |
| CSharp14Statistics.ErrorsClosedForm | csharp14/DirectoryStatistics.cs:118-124 | The errors logged by the loop are the subdirectories' error lists joined in order. |
| CSharp14Statistics.DirectoryRepository.constructor | csharp14/DirectoryStatistics.cs:73-78 | No statistics yet, no errors, a zero counter. |
| CSharp14Statistics.DirectoryRepository.Open | csharp14/DirectoryStatistics.cs:73-78 | DirectoryNotFoundException exactly when the path does not exist. |
| CSharp14Statistics.DirectoryRepository.DisplayedStats | csharp14/DirectoryStatistics.cs:68-69 | The statistics shown are the computed ones, or the empty ones when Analyze never ran. |
| CSharp14Statistics.DirectoryRepository.MergeWorkers | csharp14/DirectoryStatistics.cs:94-106 | All workers in finishing order: subtrees appended, totals and counter grown, errors appended in that order. |
| CSharp14Statistics.DirectoryRepository.Analyze | csharp14/DirectoryStatistics.cs:80-110 | Fails exactly when the root's subdirectory enumeration throws, with the state unchanged. Otherwise the totals are the root's own statistics plus every worker's tree. |
| CSharp14Statistics.AnalyzeIsRecursive | csharp14/DirectoryStatistics.cs:84-106 | For any finishing order, Analyze's totals equal one recursive GetDirectorySize of the root. The errors are the same up to order. |
| PythonDirSize.ChildrenSizeSticky | Python/dirsize.py:13-15 | Once a subdirectory raised, the loop never resumes: later iterations keep that exception. |
| PythonDirSize.GetDirSize | Python/dirsize.py:4-17 | The two loops of get_dir_size give the reference result: the readable files the isfile test selects plus every subdirectory, or the message of the first exception. |
| PythonDirSize.OkIffListingsComplete | Python/dirsize.py:4-17 | get_dir_size returns exactly when every os.listdir in the subtree completes; unreadable files never make it raise. |
| PythonDirSize.HealthyListingsComplete | Python/dirsize.py:4-17 | A subtree in which nothing fails has complete listings, so get_dir_size returns on it. |
| PythonDirSize.UnreadableFileSkipped | Python/dirsize.py:6-11 | A file whose stat fails is not selected by isfile: a directory with an unreadable file and a 5-byte file measures 5. |
| PythonDirSize.OkIsTreeBytes | Python/dirsize.py:4-17 | A returned size is the byte total of the readable files of the whole subtree, which is every file when all lengths are readable. |
| PythonDirSize.ErrorComesFromTree | Python/dirsize.py:4-17 | An exception that escapes was raised by a listing inside the subtree. |
| PythonDirSize.ListNames | Python/dirsize.py:6-7 | os.listdir succeeds exactly when both listings complete. |
| PythonDirSize.FileIndexFirst | Python/dirsize.py:6-7 | The name lookup finds the first file with that name, or none. |
| PythonDirSize.SubdirIndexFirst | Python/dirsize.py:6-7 | The name lookup finds the first subdirectory with that name, or none. |
| PythonDirSize.LookupFile | Python/dirsize.py:6-7 | In a directory with unique names, a file's name resolves to that file. |
| PythonDirSize.LookupSubdir | Python/dirsize.py:6-7 | In a directory with unique names, a subdirectory's name resolves to that subdirectory. |
| PythonDirSize.JoinedSelection | Python/dirsize.py:6-7 | Checked after os.path.join, the two comprehensions pick exactly the names of the directory's readable files, in order, and exactly its subdirectories. |
| PythonDirSize.ReadableNamesAll | Python/dirsize.py:6 | When every length is readable, the isfile comprehension keeps the name of every file. |
| PythonDirSize.RootBytesSticky | Python/dirsize.py:31-33 | An exception in the top-level file loop is never overwritten by later files. |
| PythonDirSize.SubdirLinesSticky | Python/dirsize.py:37-40 | An exception in the top-level subdirectory loop stops the output there. |
| PythonDirSize.RunScript | Python/dirsize.py:27-40 | The top level gives the reference report: the two comprehensions, the file loop and its line, then one line per subdirectory. |
| PythonDirSize.SumRootFiles | Python/dirsize.py:31-34 | The file loop adds the size of every selected name until one raises. |
| PythonDirSize.PrintSubdirs | Python/dirsize.py:36-40 | The subdirectory loop prints one line per name until a measurement raises. |
| PythonDirSize.GetSubdirSize | Python/dirsize.py:39 | The top-level call measures the joined path. |
| PythonDirSize.JoinedRootBytes | Python/dirsize.py:31-33 | With the names joined to the root, the top-level file loop over the selected names sums the bytes of the root's readable files. |
| PythonDirSize.SubdirLinesAllOk | Python/dirsize.py:36-40 | When every name measures, one line per name is printed, each with its size. |
| PythonDirSize.JoinedSubdirLines | Python/dirsize.py:36-40 | With joined names and subdirectories whose listings complete, each printed subdirectory line carries that subdirectory's whole-tree bytes. |
| PythonDirSize.JoinedNamesReportTree | Python/dirsize.py:27-40 | With the names joined to the root and every listing complete, the script prints the root's readable bytes, then one line per subdirectory with its tree's bytes. |
| PythonDirSize.BareNamesMissEntries | Python/dirsize.py:28-29 | As written, run from an empty working directory, the script prints only a 0-byte root line, whatever the root holds. |
| PythonDirSize.BareNamesCounterexample | Python/dirsize.py:28-29 | A root with one 10-byte file: the script as written reports 0 bytes where the joined test reports 10. |
| TextUtils.EscapedLength | csharp14/Common/Utils.cs:30-58 | The markup is the text's length plus one per bracket, so at most twice as long; this is why the buffer is twice the text. |
| TextUtils.UnescapeEscaped | csharp14/Common/Utils.cs:33-56 | Reading the markup back shows exactly the original text. |
| TextUtils.EscapedUnchangedIff | csharp14/Common/Utils.cs:27-28 | Escaping changes a text if and only if the text contains a bracket. |
| TextUtils.Put | csharp14/Common/Utils.cs:39-40 | Writing one character grows the written part of the buffer by exactly that character. |
| TextUtils.EscapeMarkup | csharp14/Common/Utils.cs:25-59 | The buffer loop returns exactly the reference escaping: the fit checks never drop a character. |
| TextUtils.ReplaceTwiceIsEscaped | csharp13/Common/Utils.cs:21 | Replacing "[" then "]" is the same as escaping both in one pass. |
| TextUtils.EscapeMarkupByReplace | csharp13/Common/Utils.cs:18-21 | The csharp13 Replace version (and the identical private copy in csharp13/Common/DirectoryOutput.cs) produces the same markup as the csharp14 buffer version. |
| TextUtils.TrimPath | csharp14/Common/Utils.cs:17-23 | The result is at most 50 characters. A name of at most 50 is shown whole; a longer one becomes its first 48 characters and an ellipsis. |
| TextUtils.TrimPathKeepsIff | csharp14/Common/Utils.cs:20-22 | The name is shown unchanged exactly when it fits, and a trimmed name is shorter than the original. |
| TextUtils.TrimPathOfChild | csharp14/Common/Utils.cs:19 | Only the entry's own name matters, whatever directory holds it. |
| TextUtils.TrimPathAsWritten | csharp13/Common/Utils.cs:13-16 | The csharp13 version keeps short names; a long one becomes 51 characters, sharing the first 48. |
| TextUtils.TrimPathAsWrittenOverlong | csharp13/Common/Utils.cs:15 | Every trimmed name comes out longer than the 50-character limit and differs from the intended result. |
| TextUtils.TrimPathAsWrittenCounterexample | csharp13/Common/Utils.cs:15 | A 51-character name comes out the same length, where the intended trim gives 49. |
| TextUtils.RelativeAgeAsWritten | csharp14/Common/Utils.cs:61-85 | "Unknown" exactly for DateTime.MinValue; a future time counts as 0 seconds. |
| TextUtils.AgeIsWholeUnits | csharp14/Common/Utils.cs:69-84 | The amount shown is the whole number of elapsed units, rounded down, in the unit chosen. |
| TextUtils.RelativeAgeAsWrittenZeroMonths | csharp14/Common/Utils.cs:81-82 | An age of 28 or 29 days is shown as "0mo". |
| TextUtils.RelativeAge | csharp14/Common/Utils.cs:61-85 | The corrected version keeps weeks until a 30-day month: "Unknown" exactly for MinValue, and 0 seconds for a future time. |
| TextUtils.AgeNeverZeroUnits | csharp14/Common/Utils.cs:79-82 | With the correction, only an age under a minute shows a zero amount, and every other age shows at least one unit. |
| TextUtils.AgeUnitMonotone | csharp14/Common/Utils.cs:69-84 | An older time never gets a smaller unit. |
| TextUtils.Digits | csharp14/Common/Utils.cs:72 | The number is written in decimal digits only, at least one. |
| TextUtils.DigitsRoundTrip | csharp14/Common/Utils.cs:72 | Reading the digits back gives the number. |
| TextUtils.Render | csharp14/Common/Utils.cs:63-84 | The text is "-" exactly for an unknown age. |
| TextUtils.ToRelativeTime | csharp14/Common/Utils.cs:61-85 | Returns "-" exactly for DateTime.MinValue. |
| ConsolePaging.Truncate | csharp8/DirectoryOutput.cs:13 | A value that fits is unchanged. A longer one is "..." plus its last maxChars characters. csharp9 calls the same code with 45 characters, csharp8 with 50. |
| ConsolePaging.TruncateIdempotent | csharp8/DirectoryRepository.cs:86-89 | Truncating twice is the same as truncating once. |
| ConsolePaging.WriteRows | csharp8/DirectoryOutput.cs:33-49 | The foreach with its counter writes exactly the reference paged lines. |
| ConsolePaging.BySizeDescending | csharp8/DirectoryOutput.cs:34 | OrderByDescending is a reordering of the repository, with sizes that never increase; directories of equal size keep their order (stable). |
| ConsolePaging.ResultRowsIndex | csharp8/DirectoryOutput.cs:39-45 | One results row per directory, in order, each showing that directory. |
| ConsolePaging.ErrorRowsIndex | csharp8/DirectoryOutput.cs:84-88 | One error row per error, in order. |
| ConsolePaging.ResultsLargestFirst | csharp8/DirectoryOutput.cs:34 | The results table lists every directory once, with sizes that never increase down the table. |
| ConsolePaging.PagedRows | csharp8/DirectoryOutput.cs:34-49 | However the pages fall, every row is written exactly once and in order. |
| ConsolePaging.HeaderFirst | csharp8/DirectoryOutput.cs:36-37 | The first row always comes after a header. |
| ConsolePaging.QuietHeaderOnce | csharp8/DirectoryOutput.cs:18-27 | In quiet mode the header is written once and the console never waits. |
| ConsolePaging.PagedTable | csharp8/DirectoryOutput.cs:33-49 | A paged table shows its rows in order and starts with a header. It is empty exactly when there are no rows, and in quiet mode has one header and no prompt. |
| ConsolePaging.PagePosIsMod | csharp8/DirectoryOutput.cs:47 | The counter reset by pause is the row position modulo the page length. |
| ConsolePaging.PagedCounts | csharp8/DirectoryOutput.cs:18-27 | Outside quiet mode, a header opens every page and a prompt closes every full page. |
| ConsolePaging.PagedCountsClosedForm | csharp8/DirectoryOutput.cs:36-47 | With a window H lines high and pages of P = H - H/2 + 1 rows, k rows take (k + P - 1) / P headers and k / P prompts. |
| CSharp8Output.DisplayResults | csharp8/DirectoryOutput.cs:29-65 | Writes exactly the reference results screen. |
| CSharp8Output.ResultsShown | csharp8/DirectoryOutput.cs:34-47 | The results screen shows each directory's row once, largest first, with one header in quiet mode. |
| CSharp8Output.DisplayErrors | csharp8/DirectoryOutput.cs:67-94 | Writes exactly the reference errors screen. |
| CSharp8Output.ErrorTotalFirst | csharp8/DirectoryOutput.cs:69-76 | The error total is always shown. With no errors nothing follows it; otherwise the header does. |
| CSharp8Output.ErrorsShown | csharp8/DirectoryOutput.cs:76-93 | The error rows are the errors in logged order, under one header in quiet mode, and none without errors. |
| CSharp8Output.Print | csharp8/DirectoryRepository.cs:62-84 | Writes exactly the reference Print screen. |
| CSharp8Output.PrintShown | csharp8/DirectoryRepository.cs:65-73 | Print shows the same rows as DisplayResults, under a single header. |
| CSharp9Output.DisplayResults | csharp9/DirectoryOutput.cs:28-45 | Writes exactly the reference results screen. |
| CSharp9Output.ResultsShown | csharp9/DirectoryOutput.cs:33-38 | Every directory once, largest first, with one header in quiet mode. |
| CSharp9Output.DisplayErrors | csharp9/DirectoryOutput.cs:47-63 | Writes exactly the reference errors screen. |
| CSharp9Output.ErrorsShown | csharp9/DirectoryOutput.cs:51-62 | One row per error in logged order. There is no header exactly when there are no errors, and one header in quiet mode. |
| CSharp9Output.ErrorHeaderFirst | csharp9/DirectoryOutput.cs:49-57 | With errors, the header comes right after the opening blank line. |
| Navigation.SortedKids | csharp13/DirectoryOutput.cs:30 | OrderByDescending on the subdirectories is a reordering of them, with sizes that never increase; children of equal size keep their order (stable). |
| Navigation.UpCaptionEscaped | csharp14/Common/MenuChoice.cs:5 | The Up caption is the markup escape of "[[..] Up]". |
| Navigation.ExitCaptionEscaped | csharp14/Common/MenuChoice.cs:6 | The Exit caption is the markup escape of "[Exit]". |
| Navigation.ChildChoice | csharp14/DirectoryOutput.cs:64-65 | A subdirectory's menu line carries that subdirectory's path and is never a fixed caption. |
| Navigation.ChildChoicesIndex | csharp13/DirectoryOutput.cs:31-37 | One menu line per subdirectory, in the order given. |
| Navigation.MenuLayout | csharp13/DirectoryOutput.cs:27-38 | Up is offered exactly below the root, and Exit always. Exit is last in DisplayTable and first after Up in NavigateInteractive. Between them is one line per subdirectory, largest first. |
| Navigation.MenuEnds | csharp13/Common/DirectoryOutput.cs:82-85 | The fixed lines of the menu and its length: the subdirectories plus one or two. |
| Navigation.MenuChildAt | csharp14/DirectoryOutput.cs:28-36 | The i-th subdirectory line is the line of the i-th largest subdirectory. |
| Navigation.MenuSizeAt | csharp13/DirectoryOutput.cs:34 | A DisplayTable subdirectory line shows that subdirectory's size. |
| Navigation.MenuLargestFirst | csharp14/DirectoryOutput.cs:28-30 | Down the DisplayTable menu, the sizes shown never increase. |
| Navigation.MenuListsEveryChild | csharp14/DirectoryOutput.cs:32-36 | Every subdirectory of the directory on screen has its line in the menu. |
| Navigation.AddChildren | csharp13/Common/DirectoryOutput.cs:88-92 | The foreach appends exactly the subdirectories' lines to the menu. |
| Navigation.BuildMenu | csharp14/DirectoryOutput.cs:20-38 | The loop body builds exactly the reference menu. |
| Navigation.TableLists | csharp13/Common/DirectoryOutput.cs:40-51 | The table lists every subdirectory once, largest first. Its footers are the totals of its rows. |
| Navigation.BuildTable | csharp13/Common/DirectoryOutput.cs:25-55 | The loop builds exactly the reference table. |
| Navigation.FirstMatch | csharp13/DirectoryOutput.cs:55 | FirstOrDefault finds the first subdirectory whose path matches ignoring case, or none. |
| Navigation.Step | csharp13/Common/DirectoryOutput.cs:102-117 | Exit ends the loop. Up pops exactly one record. Any other answer pushes the first case-insensitive match, and leaves the stack alone exactly when nothing matches. |
| Navigation.RunStep | csharp13/DirectoryOutput.cs:47-58 | After one answer the session is the screen shown, then the session from the new stack; Exit ends it there. |
| Navigation.StepKeepsChain | csharp14/DirectoryOutput.cs:55-59 | Every pushed record is a subdirectory of the one below it, and the records beneath are kept. |
| Navigation.StepKeepsRoot | csharp14/DirectoryOutput.cs:25-26 | An offered answer never pops the root, since Up is only offered below it. |
| Navigation.RunKeepsRoot | csharp13/Common/DirectoryOutput.cs:67-118 | A session answered from its menus never empties the stack. The root stays at the bottom, and the stack stays a chain of subdirectories. |
| Navigation.RunConsumesAnswers | csharp13/DirectoryOutput.cs:19-59 | Each round consumes one answer, and a waiting session has exactly one screen more than answers. |
| Navigation.RunExitsOnExit | csharp13/Common/DirectoryOutput.cs:102-103 | A session that exited stopped on the Exit answer to its last screen. |
| Navigation.ChosenChildPushed | csharp13/Common/DirectoryOutput.cs:111-116 | Choosing a subdirectory's line pushes that subdirectory when no sibling matches its path ignoring case. |
| Navigation.CaseTwinsPushFirst | csharp14/DirectoryOutput.cs:55-56 | With sibling paths "r/A" (larger) and "r/a", choosing "r/a" pushes "r/A": the first case-insensitive match wins. |
| Navigation.NavigateInteractive | csharp13/Common/DirectoryOutput.cs:65-119 | The loop shows and does exactly what the reference session does on the given answers. |
| Navigation.DisplayTable | csharp13/DirectoryOutput.cs:14-60 | The loop shows and does exactly what the reference session does on the given answers. |
| Browsers.FooterLeavesOutOwnFiles | csharp13/Common/DirectoryOutput.cs:49-51 | For a csharp13 tree, the table's footers are the directory's totals less its own files' count and bytes. |
| Browsers.MenuListsEverySubdirectory | csharp14/DirectoryOutput.cs:28-36 | For a csharp14 tree, the menu has one line for every subdirectory the enumeration yielded. |
| GoSorted.LessIsStrictWeakOrder | Go/cmd/sorted.go:13-15 | Less is irreflexive, asymmetric and transitive. "Neither is less" means equal sizes, as sort.Sort requires. |
| GoSorted.Swapped | Go/cmd/sorted.go:9-11 | Swap exchanges the two elements and leaves every other element in place. |
| GoSorted.SwappedTwice | Go/cmd/sorted.go:9-11 | Swapping twice restores the slice. |
| GoSorted.SwappedPermutation | Go/cmd/sorted.go:9-11 | A swap keeps the same directories. |
| GoSorted.Swap | Go/cmd/sorted.go:9-11 | The array after Swap is the swapped slice. |
| GoSorted.IsSortedIffNonIncreasing | Go/cmd/sorted.go:13-15 | Sorted by Less if and only if sizes never increase along the slice. |
| GoSorted.Sort | Go/cmd/directorysize.go:37 | sort.Sort through Len, Less and Swap leaves a permutation of the slice that is sorted by Less. |
| GoSorted.ValuesAt | Go/cmd/directorysize.go:33-36 | One value per key, in the order of the keys. |
| GoSorted.Sorted | Go/cmd/directorysize.go:32-39 | sorted() returns the repository's values, each once, largest first. |
| GoSorted.ValuesAtListsEveryKey | Go/cmd/directorysize.go:33-36 | The slice holds one directory per key of the map, and every value of the map is in it. |
| GoSorted.SortedSizesDetermined | Go/cmd/directorysize.go:32-39 | Whatever the map order and however ties are broken, the sequence of sizes is the same. |

## Left out

- Concurrency: Parallel.ForEach, the locks and the fire-and-forget `async` lambdas are modelled as if every worker completed before Run, Traverse or Analyze returns, in the order of a `schedule` parameter. Interleavings inside a worker and workers still running after return are not modelled.
- CSharp8Repository.MergeCount: how many csharp8 bodies are under way when the first ReportProgress throws is the `running` parameter; which of the yielded subdirectories those bodies measure is the order of `schedule`. That at least one body merges when there is a worker is an assumption about Parallel.ForEach's partitioner (a worker that has taken an item runs its body before it looks at the stop flag), not something the model derives.
- The real file system is an immutable tree value. Changes to the disk while the program runs are not modelled.
- Floating point: the megabyte and percentage figures, `ToMB`, `ToNumberFormat`, `Math.Round` and the byte constants used only for display are not modelled. Rows carry whole byte counts.
- Column widths, `PadRight`, format strings and the label padding of `FormatDirectoryLabel` are not modelled: a line is a value holding what it shows.
- Spectre.Console rendering (tables, markup, `SelectionPrompt`) is not modelled. A table is a value and the prompt's answers are an input sequence.
- `Console.ReadKey` and `Console.WindowHeight`: the key wait is a prompt line and the window height is a parameter.
- Stopwatch timings and `DateTime.Now` are parameters. Ages are whole seconds; sub-second ticks are not modelled.
- `Directory.GetLastWriteTime` is an input field of the tree.
- `EnumerationOptions` and `AttributesToSkip` are not modelled: the tree holds the entries the enumeration yields.
- Null strings: EscapeMarkup's and TrimPath's null input are not modelled (a `string` is never null here), except the constructor's null path, which OpenChecked models.
- Fixed-width integers are not modelled: the `long` totals and sizes and the `int` counters and file counts (csharp14's `int fileCount`, the `counter` fields) are unbounded natural numbers, so their overflow is not modelled.
- OrdinalIgnoreCase is modelled on ASCII letters only.
- Entries that are neither a file nor a directory (sockets, broken links) are not modelled: a directory holds files and subdirectories only. A file whose length cannot be read is the one entry os.path.isfile rejects, so get_dir_size skips it.
- PythonDirSize.DirSize: a subdirectory whose own stat fails, which os.path.isdir rejects and get_dir_size would skip, is not modelled: a subdirectory here has no stat outcome of its own, only its two listings.
- FileSystem.BaseName: splits at '/' only. Path.GetFileName on Windows also splits at '\\' and at the volume separator ':'; such paths are not modelled.
- TextUtils.TrimPath: lengths and the 48-character cut count Unicode scalar values, not UTF-16 code units as `string.Length` and the range `[..48]` do. Names made of characters from the Basic Multilingual Plane agree; a longer name with characters outside it is trimmed differently, and a cut through a surrogate pair is not modelled.
- CSharp14Statistics: `Subdirectories` is a `HashSet`, modelled as a sequence in insertion order. The menus sort it with a stable OrderByDescending, so the order shown among subdirectories of equal size follows the set's enumeration order, which the model does not capture.
- Navigation.RunKeepsRoot: an answer is counted as offered only if a subdirectory line whose path is literally "up" is not chosen in NavigateInteractive; the program would take such a line for Up.
- Navigation.DisplayTable: csharp13's DisplayTable labels use the corrected TrimPath (see Findings), not the misencoded ellipsis.
- GoSorted.Sort: the Go library's sort.Sort is not part of this model. It is modelled by an insertion sort through Len, Less and Swap that meets sort.Sort's promise. Go's unspecified map iteration order is the `keys` parameter.
- Go goroutines, `filepath.Walk`, the rest of `directorysize.go` and `main.go` are not part of this model.
- csharp10's `DirectoryOutput.cs` and `ProgressBar.cs` are not part of this model; only the call that ReportProgress makes into the root listing matters to the totals (csharp8).
- The `Program.cs` files, argument parsing, the Python banner `print` and `argparse` are not part of this model.
- The 2.0, 2.2 and dotnet4 projects are not part of this model.

## Findings

| source | as written | input that shows it | evidently intended | confidence | as-written member | corrected member |
|---|---|---|---|---|---|---|
| Python/dirsize.py:28-29 | `os.path.isfile(f)` and `os.path.isdir(d)` test the bare name in the working directory | root "/data" holding a 10-byte "a.txt", run from an empty working directory: prints "/data - 0.00 mb" | test `os.path.join(args.directory, f)`, as get_dir_size does at lines 6-7 | not executed | PythonDirSize.BareNamesCounterexample | PythonDirSize.JoinedNamesReportTree |
| csharp13/Common/Utils.cs:13-16 | the ellipsis literal is the three characters "â€¦" (UTF-8 read as Windows-1252) | a 51-character name trims to 48 characters plus 3, again 51 characters, over the 50 limit | one "…" character, giving 49 characters, as csharp14 does | not executed | TextUtils.TrimPathAsWrittenCounterexample | TextUtils.TrimPath |
| csharp14/Common/Utils.cs:79-82 | "mo" is chosen from 28 days on, while the amount divides by 30 days | an age of 28 days shows "0mo" | weeks until 30 days, so no age of a minute or more shows a zero amount | not executed | TextUtils.RelativeAgeAsWrittenZeroMonths | TextUtils.AgeNeverZeroUnits |
